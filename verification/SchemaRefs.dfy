/**
 * `addDefinitions`: repeated sub-schemas become references into `$defs`, annotations staying where they are used.
 *
 * Expanding the references of the result terminates and gives back the original schema, up to the order of keys.
 */
module SchemaRefs {

  datatype Option<+T> = None | Some(value: T)

  /** A JSON value; an object keeps the order of its keys. `Scalar` is any value that is no text, list or object. */
  datatype Json = Scalar(text: string) | Str(s: string) | List(items: seq<Json>) | Object(entries: seq<Entry>)

  datatype Entry = Entry(key: string, value: Json)

  const REF := "$ref"
  const DEFS := "$defs"

  predicate IsAnnotation(key: string) {
    key in ["default", "deprecated", "description", "examples", "readOnly", "title", "writeOnly"]
  }

  function Shape(entries: seq<Entry>): seq<Entry> {
    if entries == [] then []
    else if IsAnnotation(entries[0].key) then Shape(entries[1..])
    else [entries[0]] + Shape(entries[1..])
  }

  function Annotations(entries: seq<Entry>): seq<Entry> {
    if entries == [] then []
    else if IsAnnotation(entries[0].key) then [entries[0]] + Annotations(entries[1..])
    else Annotations(entries[1..])
  }

  /** Split an object into what constrains values and what only comments on them. */
  method SplitAnnotations(entries: seq<Entry>) returns (shape: seq<Entry>, annotations: seq<Entry>)
    ensures shape == Shape(entries) && annotations == Annotations(entries)
  {
    shape, annotations := [], [];
    for i := 0 to |entries|
      invariant shape == Shape(entries[..i]) && annotations == Annotations(entries[..i])
    {
      assert entries[..i + 1] == entries[..i] + [entries[i]];
      SplitMore(entries[..i], entries[i]);
      if IsAnnotation(entries[i].key) {
        annotations := annotations + [entries[i]];
      } else {
        shape := shape + [entries[i]];
      }
    }
    assert entries[..|entries|] == entries;
  }

  lemma {:induction false} SplitMore(entries: seq<Entry>, e: Entry)
    ensures Shape(entries + [e]) == Shape(entries) + if IsAnnotation(e.key) then [] else [e]
    ensures Annotations(entries + [e]) == Annotations(entries) + if IsAnnotation(e.key) then [e] else []
  {
    hide IsAnnotation;
    if entries != [] {
      SplitMore(entries[1..], e);
      assert (entries + [e])[1..] == entries[1..] + [e];
    }
  }

  /** Exactly the entries of seven keys are annotations. */
  lemma SplitOne(e: Entry)
    ensures if e.key == "default" || e.key == "deprecated" || e.key == "description" || e.key == "examples"
               || e.key == "readOnly" || e.key == "title" || e.key == "writeOnly" then
              Shape([e]) == [] && Annotations([e]) == [e]
            else Shape([e]) == [e] && Annotations([e]) == []
  {
  }

  /** Shape and annotations keep the order of the entries. */
  lemma {:induction false} SplitConcat(a: seq<Entry>, b: seq<Entry>)
    ensures Shape(a + b) == Shape(a) + Shape(b) && Annotations(a + b) == Annotations(a) + Annotations(b)
  {
    hide Shape, Annotations, IsAnnotation;
    if b == [] {
      SplitNone();
      assert a + b == a;
    } else {
      var n := |b| - 1;
      SplitConcat(a, b[..n]);
      SplitMore(a + b[..n], b[n]);
      SplitMore(b[..n], b[n]);
      assert (a + b[..n]) + [b[n]] == a + b && b[..n] + [b[n]] == b;
    }
  }

  lemma SplitNone()
    ensures Shape([]) == Annotations([]) == []
  {
  }

  // ---------------------------------------------------------------- replacing

  /** A definition with its shape; its own annotations are not part of it. */
  datatype Definition = Definition(name: string, shape: seq<Entry>)

  predicate IsShape(entries: seq<Entry>) {
    forall i | 0 <= i < |entries| :: !IsAnnotation(entries[i].key)
  }

  /** The first definition of that shape other than `excluded`. */
  function Match(defs: seq<Definition>, shape: seq<Entry>, excluded: Option<string>): (r: Option<string>)
    ensures r.Some? ==> exists d :: d in defs && d.name == r.value && d.shape == shape && excluded != Some(d.name)
    ensures forall i | 0 <= i < |defs| && defs[i].shape == shape && excluded != Some(defs[i].name) ::
              (forall j | 0 <= j < i :: defs[j].shape != shape || excluded == Some(defs[j].name)) ==>
                r == Some(defs[i].name)
    ensures r.None? ==> forall d | d in defs :: d.shape == shape ==> excluded == Some(d.name)
  {
    if defs == [] then None
    else if excluded != Some(defs[0].name) && defs[0].shape == shape then Some(defs[0].name)
    else Match(defs[1..], shape, excluded)
  }

  function Reference(name: string): Entry {
    Entry(REF, Str("#/$defs/" + name))
  }

  function Replace(defs: seq<Definition>, v: Json, excluded: Option<string>): (r: Json)
    ensures r.Object? <==> v.Object?
    decreases v
  {
    match v
    case List(items) => List(ReplaceItems(defs, items, excluded))
    case Object(entries) =>
      var found := Match(defs, Shape(entries), excluded);
      if found.Some? then Object([Reference(found.value)] + Annotations(entries))
      else Object(ReplaceEntries(defs, entries, excluded))
    case _ => v
  }

  function ReplaceItems(defs: seq<Definition>, items: seq<Json>, excluded: Option<string>): (r: seq<Json>)
    ensures |r| == |items|
    decreases items
  {
    if items == [] then [] else [Replace(defs, items[0], excluded)] + ReplaceItems(defs, items[1..], excluded)
  }

  function ReplaceEntries(defs: seq<Definition>, entries: seq<Entry>, excluded: Option<string>): (r: seq<Entry>)
    ensures |r| == |entries| && forall i | 0 <= i < |r| :: r[i].key == entries[i].key
    decreases entries
  {
    if entries == [] then [] else
      var e := entries[0];
      [if IsAnnotation(e.key) then e else Entry(e.key, Replace(defs, e.value, excluded))]
      + ReplaceEntries(defs, entries[1..], excluded)
  }

  // ---------------------------------------------------------------- expanding

  /** The name a `$ref` into `$defs` points to. */
  function Pointed(e: Entry): Option<string> {
    if e.key == REF && e.value.Str? && |e.value.s| >= 8 && e.value.s[..8] == "#/$defs/" then Some(e.value.s[8..])
    else None
  }

  lemma PointedReference(name: string)
    ensures Pointed(Reference(name)) == Some(name) && !IsAnnotation(REF)
    ensures Reference(name) == Entry("$ref", Str("#/$defs/" + name))
  {
    var s := "#/$defs/" + name;
    assert |"#/$defs/"| == 8 && s[..8] == "#/$defs/" && s[8..] == name;
  }

  /** The definition an object refers to, if it refers to one. */
  function Target(table: map<string, Json>, entries: seq<Entry>): Option<string> {
    if entries == [] then None
    else if Pointed(entries[0]).Some? && Pointed(entries[0]).value in table then Pointed(entries[0])
    else Target(table, entries[1..])
  }

  function WithoutRef(entries: seq<Entry>): seq<Entry> {
    if entries == [] then []
    else if entries[0].key == REF then WithoutRef(entries[1..])
    else [entries[0]] + WithoutRef(entries[1..])
  }

  /**
   * Replace every reference by its definition, keeping the keys next to it. `None` when `fuel` references in a row do
   * not suffice. Annotations hold no schemas.
   */
  function Expand(table: map<string, Json>, v: Json, fuel: nat): Option<Json>
    decreases fuel, v
  {
    match v
    case List(items) =>
      var r := ExpandItems(table, items, fuel);
      if r.None? then None else Some(List(r.value))
    case Object(entries) =>
      var target := Target(table, entries);
      if target.None? then
        var r := ExpandEntries(table, entries, fuel);
        if r.None? then None else Some(Object(r.value))
      else if fuel == 0 || target.value !in table then None
      else
        var r := Expand(table, table[target.value], fuel - 1);
        if r.Some? && r.value.Object? then Some(Object(r.value.entries + WithoutRef(entries))) else None
    case _ => Some(v)
  }

  function ExpandItems(table: map<string, Json>, items: seq<Json>, fuel: nat): Option<seq<Json>>
    decreases fuel, items
  {
    if items == [] then Some([]) else
      var first, rest := Expand(table, items[0], fuel), ExpandItems(table, items[1..], fuel);
      if first.Some? && rest.Some? then Some([first.value] + rest.value) else None
  }

  function ExpandEntries(table: map<string, Json>, entries: seq<Entry>, fuel: nat): Option<seq<Entry>>
    decreases fuel, entries
  {
    if entries == [] then Some([]) else
      var e := entries[0];
      var first := if IsAnnotation(e.key) then Some(e.value) else Expand(table, e.value, fuel);
      var rest := ExpandEntries(table, entries[1..], fuel);
      if first.Some? && rest.Some? then Some([Entry(e.key, first.value)] + rest.value) else None
  }

  // ---------------------------------------------------------------- meaning, whatever the order of keys

  datatype Tree = Leaf(text: string) | Text(s: string) | Items(items: seq<Tree>) | Fields(fields: map<string, Tree>)

  function Canon(v: Json): Tree
    decreases v
  {
    match v
    case Scalar(text) => Leaf(text)
    case Str(s) => Text(s)
    case List(items) => Items(CanonItems(items))
    case Object(entries) => Fields(CanonEntries(entries))
  }

  function CanonItems(items: seq<Json>): seq<Tree>
    decreases items
  {
    if items == [] then [] else [Canon(items[0])] + CanonItems(items[1..])
  }

  function CanonEntries(entries: seq<Entry>): map<string, Tree>
    decreases entries
  {
    if entries == [] then map[] else CanonEntries(entries[1..])[entries[0].key := Canon(entries[0].value)]
  }

  lemma {:induction false} CanonConcat(a: seq<Entry>, b: seq<Entry>)
    ensures CanonEntries(a + b) == CanonEntries(b) + CanonEntries(a)
  {
    hide Canon;
    if a == [] {
      assert a + b == b;
      assert CanonEntries(b) + map[] == CanonEntries(b);
    } else {
      CanonConcat(a[1..], b);
      assert (a + b)[1..] == a[1..] + b;
    }
  }

  lemma {:induction false} KeysSplit(entries: seq<Entry>, key: string)
    ensures key in CanonEntries(Shape(entries)) ==> !IsAnnotation(key)
    ensures key in CanonEntries(Annotations(entries)) ==> IsAnnotation(key)
  {
    hide Canon, IsAnnotation;
    if entries != [] {
      KeysSplit(entries[1..], key);
      if IsAnnotation(entries[0].key) {
        assert Annotations(entries) == [entries[0]] + Annotations(entries[1..]);
      } else {
        assert Shape(entries) == [entries[0]] + Shape(entries[1..]);
      }
    }
  }

  /** Shape and annotations together are the whole object. */
  lemma {:induction false} CanonSplit(entries: seq<Entry>)
    ensures CanonEntries(entries) == CanonEntries(Annotations(entries)) + CanonEntries(Shape(entries))
  {
    hide Canon, IsAnnotation;
    if entries != [] {
      var e, rest := entries[0], entries[1..];
      CanonSplit(rest);
      if IsAnnotation(e.key) {
        assert Annotations(entries) == [e] + Annotations(rest) && Shape(entries) == Shape(rest);
        KeysSplit(rest, e.key);
      } else {
        assert Shape(entries) == [e] + Shape(rest) && Annotations(entries) == Annotations(rest);
      }
    }
  }

  function Size(v: Json): nat
    decreases v
  {
    match v
    case List(items) => 1 + SizeItems(items)
    case Object(entries) => 1 + SizeEntries(entries)
    case _ => 1
  }

  function SizeItems(items: seq<Json>): nat
    decreases items
  {
    if items == [] then 0 else Size(items[0]) + SizeItems(items[1..])
  }

  function SizeEntries(entries: seq<Entry>): nat
    decreases entries
  {
    if entries == [] then 0 else Size(entries[0].value) + SizeEntries(entries[1..])
  }

  lemma {:induction false} ShapeSmaller(entries: seq<Entry>)
    ensures SizeEntries(Shape(entries)) <= SizeEntries(entries)
  {
    hide IsAnnotation, Size;
    if entries != [] {
      ShapeSmaller(entries[1..]);
      if !IsAnnotation(entries[0].key) {
        assert Shape(entries) == [entries[0]] + Shape(entries[1..]);
      }
    }
  }

  /** Outside annotations, nothing refers into the table yet. */
  predicate NoRef(table: map<string, Json>, v: Json)
    decreases v
  {
    match v
    case List(items) => NoRefItems(table, items)
    case Object(entries) => Target(table, entries).None? && NoRefEntries(table, entries)
    case _ => true
  }

  predicate NoRefItems(table: map<string, Json>, items: seq<Json>)
    decreases items
  {
    items == [] || (NoRef(table, items[0]) && NoRefItems(table, items[1..]))
  }

  predicate NoRefEntries(table: map<string, Json>, entries: seq<Entry>)
    decreases entries
  {
    entries == [] ||
    ((IsAnnotation(entries[0].key) || NoRef(table, entries[0].value)) && NoRefEntries(table, entries[1..]))
  }

  lemma {:induction false} NoRefShape(table: map<string, Json>, entries: seq<Entry>)
    requires NoRefEntries(table, entries)
    ensures NoRefEntries(table, Shape(entries))
  {
    hide IsAnnotation, NoRef;
    if entries != [] {
      NoRefShape(table, entries[1..]);
      if !IsAnnotation(entries[0].key) {
        assert Shape(entries) == [entries[0]] + Shape(entries[1..]);
      }
    }
  }

  // ---------------------------------------------------------------- expanding gives back the original

  /** `$defs`: every definition's shape, with the others replaced in it. */
  ghost predicate IsTable(defs: seq<Definition>, table: map<string, Json>) {
    && (forall d | d in defs :: d.name in table && table[d.name] == Replace(defs, Object(d.shape), Some(d.name)))
    && (forall name | name in table :: exists d :: d in defs && d.name == name)
  }

  predicate DistinctNames(defs: seq<Definition>) {
    forall c, d | c in defs && d in defs :: c.name == d.name ==> c == d
  }

  predicate DistinctShapes(defs: seq<Definition>) {
    forall c, d | c in defs && d in defs :: c.shape == d.shape ==> c.name == d.name
  }

  /** Two definitions have that shape. */
  ghost predicate Twins(defs: seq<Definition>, shape: seq<Entry>) {
    exists c, d :: c in defs && d in defs && c.name != d.name && c.shape == shape && d.shape == shape
  }

  /** Outside annotations, no object of `v` has the shape of two definitions. */
  ghost predicate TwinFree(defs: seq<Definition>, v: Json)
    decreases v
  {
    match v
    case List(items) => TwinFreeItems(defs, items)
    case Object(entries) => !Twins(defs, Shape(entries)) && TwinFreeEntries(defs, entries)
    case _ => true
  }

  ghost predicate TwinFreeItems(defs: seq<Definition>, items: seq<Json>)
    decreases items
  {
    items == [] || (TwinFree(defs, items[0]) && TwinFreeItems(defs, items[1..]))
  }

  ghost predicate TwinFreeEntries(defs: seq<Definition>, entries: seq<Entry>)
    decreases entries
  {
    entries == [] ||
    ((IsAnnotation(entries[0].key) || TwinFree(defs, entries[0].value)) && TwinFreeEntries(defs, entries[1..]))
  }

  lemma {:induction false} TwinFreeShape(defs: seq<Definition>, entries: seq<Entry>)
    ensures TwinFreeEntries(defs, Shape(entries)) <==> TwinFreeEntries(defs, entries)
  {
    hide IsAnnotation, TwinFree;
    if entries != [] {
      TwinFreeShape(defs, entries[1..]);
      if !IsAnnotation(entries[0].key) {
        assert Shape(entries) == [entries[0]] + Shape(entries[1..]);
      }
    }
  }

  lemma {:induction false} DistinctTwinFree(defs: seq<Definition>, v: Json)
    requires DistinctShapes(defs)
    ensures TwinFree(defs, v)
    decreases v, 0
  {
    match v
    case List(items) => ItemsTwinFree(defs, items);
    case Object(entries) => EntriesTwinFree(defs, entries);
    case _ =>
  }

  lemma {:induction false} ItemsTwinFree(defs: seq<Definition>, items: seq<Json>)
    requires DistinctShapes(defs)
    ensures TwinFreeItems(defs, items)
    decreases items, 0
  {
    hide TwinFree;
    if items != [] {
      DistinctTwinFree(defs, items[0]);
      ItemsTwinFree(defs, items[1..]);
    }
  }

  lemma {:induction false} EntriesTwinFree(defs: seq<Definition>, entries: seq<Entry>)
    requires DistinctShapes(defs)
    ensures TwinFreeEntries(defs, entries)
    decreases entries, 0
  {
    hide TwinFree, IsAnnotation;
    if entries != [] {
      DistinctTwinFree(defs, entries[0].value);
      EntriesTwinFree(defs, entries[1..]);
    }
  }

  predicate Shapes(defs: seq<Definition>) {
    forall d | d in defs :: IsShape(d.shape)
  }

  lemma {:induction false} ShapeOfShape(entries: seq<Entry>)
    requires IsShape(entries)
    ensures Shape(entries) == entries && Annotations(entries) == []
  {
    hide IsAnnotation;
    if entries != [] {
      ShapeOfShape(entries[1..]);
    }
  }

  lemma PointedReplaced(defs: seq<Definition>, e: Entry, excluded: Option<string>)
    ensures Pointed(Entry(e.key, Replace(defs, e.value, excluded))) == Pointed(e)
  {
    hide Match, IsAnnotation;
  }

  lemma {:induction false} TargetReplaced(defs: seq<Definition>, table: map<string, Json>, entries: seq<Entry>,
                                          excluded: Option<string>)
    ensures Target(table, ReplaceEntries(defs, entries, excluded)) == Target(table, entries)
  {
    hide Replace, IsAnnotation, Pointed;
    if entries != [] {
      PointedReplaced(defs, entries[0], excluded);
      TargetReplaced(defs, table, entries[1..], excluded);
      assert ReplaceEntries(defs, entries, excluded)[1..] == ReplaceEntries(defs, entries[1..], excluded);
    }
  }

  lemma {:induction false} TargetShape(table: map<string, Json>, entries: seq<Entry>)
    requires Target(table, entries).None?
    ensures Target(table, Shape(entries)).None?
  {
    hide IsAnnotation, Pointed;
    if entries != [] {
      TargetShape(table, entries[1..]);
      if !IsAnnotation(entries[0].key) {
        assert Shape(entries)[1..] == Shape(entries[1..]);
      }
    }
  }

  /** The keys next to a reference. */
  lemma {:induction false} WithoutRefAnnotations(entries: seq<Entry>)
    ensures WithoutRef(Annotations(entries)) == Annotations(entries)
  {
    hide IsAnnotation;
    PointedReference("");
    if entries != [] {
      WithoutRefAnnotations(entries[1..]);
      if IsAnnotation(entries[0].key) {
        assert Annotations(entries)[1..] == Annotations(entries[1..]);
      }
    }
  }

  lemma TargetReference(table: map<string, Json>, name: string, entries: seq<Entry>)
    requires name in table
    ensures Target(table, [Reference(name)] + Annotations(entries)) == Some(name)
    ensures WithoutRef([Reference(name)] + Annotations(entries)) == Annotations(entries)
  {
    hide IsAnnotation, Pointed;
    PointedReference(name);
    WithoutRefAnnotations(entries);
    assert ([Reference(name)] + Annotations(entries))[1..] == Annotations(entries);
  }

  lemma {:induction false} ShapeIsShape(entries: seq<Entry>)
    ensures IsShape(Shape(entries))
  {
    hide IsAnnotation;
    if entries != [] {
      ShapeIsShape(entries[1..]);
    }
  }

  /** Expanding a replaced value gives back the value. */
  lemma {:induction false} ExpandsBack(defs: seq<Definition>, table: map<string, Json>, v: Json,
                                       excluded: Option<string>, fuel: nat)
    requires IsTable(defs, table) && DistinctNames(defs) && Shapes(defs) && TwinFree(defs, v)
    requires NoRef(table, v) && fuel >= Size(v)
    ensures Expand(table, Replace(defs, v, excluded), fuel).Some?
    ensures Canon(Expand(table, Replace(defs, v, excluded), fuel).value) == Canon(v)
    ensures v.Object? ==> Expand(table, Replace(defs, v, excluded), fuel).value.Object?
    decreases Size(v), 1, 0
  {
    match v
    case List(items) => ItemsBack(defs, table, items, excluded, fuel);
    case Object(entries) =>
      var found := Match(defs, Shape(entries), excluded);
      if found.None? {
        EntriesBack(defs, table, entries, excluded, fuel);
        TargetReplaced(defs, table, entries, excluded);
      } else {
        TargetShape(table, entries);
        ReferenceBack(defs, table, entries, excluded, fuel);
      }
    case _ =>
  }

  lemma {:induction false} ItemsBack(defs: seq<Definition>, table: map<string, Json>, items: seq<Json>,
                                     excluded: Option<string>, fuel: nat)
    requires IsTable(defs, table) && DistinctNames(defs) && Shapes(defs) && TwinFreeItems(defs, items)
    requires NoRefItems(table, items) && fuel >= SizeItems(items)
    ensures ExpandItems(table, ReplaceItems(defs, items, excluded), fuel).Some?
    ensures CanonItems(ExpandItems(table, ReplaceItems(defs, items, excluded), fuel).value) == CanonItems(items)
    decreases SizeItems(items), 2, |items|
  {
    hide Replace, Canon, NoRef, TwinFree;
    if items != [] {
      ExpandsBack(defs, table, items[0], excluded, fuel);
      ItemsBack(defs, table, items[1..], excluded, fuel);
      assert ReplaceItems(defs, items, excluded)[1..] == ReplaceItems(defs, items[1..], excluded);
    }
  }

  lemma {:induction false} EntriesBack(defs: seq<Definition>, table: map<string, Json>, entries: seq<Entry>,
                                       excluded: Option<string>, fuel: nat)
    requires IsTable(defs, table) && DistinctNames(defs) && Shapes(defs) && TwinFreeEntries(defs, entries)
    requires NoRefEntries(table, entries) && fuel >= SizeEntries(entries)
    ensures ExpandEntries(table, ReplaceEntries(defs, entries, excluded), fuel).Some?
    ensures CanonEntries(ExpandEntries(table, ReplaceEntries(defs, entries, excluded), fuel).value) ==
            CanonEntries(entries)
    decreases SizeEntries(entries), 2, |entries|
  {
    hide Replace, Canon, NoRef, IsAnnotation, TwinFree;
    if entries != [] {
      if !IsAnnotation(entries[0].key) {
        ExpandsBack(defs, table, entries[0].value, excluded, fuel);
      }
      EntriesBack(defs, table, entries[1..], excluded, fuel);
      assert ReplaceEntries(defs, entries, excluded)[1..] == ReplaceEntries(defs, entries[1..], excluded);
    }
  }

  /** An object that became a reference expands to its definition, with its own annotations. */
  lemma {:induction false} ReferenceBack(defs: seq<Definition>, table: map<string, Json>, entries: seq<Entry>,
                                         excluded: Option<string>, fuel: nat)
    requires IsTable(defs, table) && DistinctNames(defs) && Shapes(defs) && TwinFree(defs, Object(entries))
    requires NoRef(table, Object(entries)) && fuel >= Size(Object(entries))
    requires Match(defs, Shape(entries), excluded).Some? && Target(table, Shape(entries)).None?
    ensures Expand(table, Replace(defs, Object(entries), excluded), fuel).Some?
    ensures Canon(Expand(table, Replace(defs, Object(entries), excluded), fuel).value) == Canon(Object(entries))
    ensures Expand(table, Replace(defs, Object(entries), excluded), fuel).value.Object?
    decreases Size(Object(entries)), 0, 0
  {
    hide IsAnnotation, Target, Match, Pointed, ReplaceEntries, WithoutRef, Reference;
    var name := Match(defs, Shape(entries), excluded).value;
    var shape := Shape(entries);
    ShapeSmaller(entries);
    NoRefShape(table, entries);
    TwinFreeShape(defs, entries);
    hide TwinFreeEntries, Twins;
    TargetReference(table, name, entries);
    DefinitionBack(defs, table, name, shape, fuel - 1);
    var expanded := Expand(table, table[name], fuel - 1).value;
    CanonConcat(expanded.entries, Annotations(entries));
    CanonSplit(entries);
    KeysDisjoint(entries);
  }

  lemma KeysDisjoint(entries: seq<Entry>)
    ensures CanonEntries(Annotations(entries)) + CanonEntries(Shape(entries)) ==
            CanonEntries(Shape(entries)) + CanonEntries(Annotations(entries))
  {
    hide Canon, IsAnnotation, CanonEntries;
    forall key ensures !(key in CanonEntries(Shape(entries)) && key in CanonEntries(Annotations(entries))) {
      KeysSplit(entries, key);
    }
  }

  /** A definition expands to its shape. */
  lemma {:induction false} DefinitionBack(defs: seq<Definition>, table: map<string, Json>, name: string,
                                          shape: seq<Entry>, fuel: nat)
    requires IsTable(defs, table) && DistinctNames(defs) && Shapes(defs)
    requires !Twins(defs, shape) && TwinFreeEntries(defs, shape)
    requires Definition(name, shape) in defs && NoRefEntries(table, shape) && Target(table, shape).None?
    requires fuel >= SizeEntries(shape)
    ensures name in table && Expand(table, table[name], fuel).Some? && Expand(table, table[name], fuel).value.Object?
    ensures Canon(Expand(table, table[name], fuel).value) == Canon(Object(shape))
    decreases SizeEntries(shape), 3, 0
  {
    hide IsAnnotation, Target, Pointed;
    ShapeOfShape(shape);
    EntriesBack(defs, table, shape, Some(name), fuel);
    TargetReplaced(defs, table, shape, Some(name));
  }

  // ---------------------------------------------------------------- which definitions are referenced

  /** The definitions `Replace` refers to. */
  function Used(defs: seq<Definition>, v: Json, excluded: Option<string>): set<string>
    decreases v
  {
    match v
    case List(items) => UsedItems(defs, items, excluded)
    case Object(entries) =>
      var found := Match(defs, Shape(entries), excluded);
      if found.Some? then {found.value} else UsedEntries(defs, entries, excluded)
    case _ => {}
  }

  function UsedItems(defs: seq<Definition>, items: seq<Json>, excluded: Option<string>): set<string>
    decreases items
  {
    if items == [] then {} else Used(defs, items[0], excluded) + UsedItems(defs, items[1..], excluded)
  }

  function UsedEntries(defs: seq<Definition>, entries: seq<Entry>, excluded: Option<string>): set<string>
    decreases entries
  {
    if entries == [] then {} else
      (if IsAnnotation(entries[0].key) then {} else Used(defs, entries[0].value, excluded))
      + UsedEntries(defs, entries[1..], excluded)
  }

  /** The definitions of `table` that `v` refers to. */
  function Mentions(table: map<string, Json>, v: Json): set<string>
    decreases v
  {
    match v
    case List(items) => MentionsItems(table, items)
    case Object(entries) =>
      var target := Target(table, entries);
      if target.Some? then {target.value} else MentionsEntries(table, entries)
    case _ => {}
  }

  function MentionsItems(table: map<string, Json>, items: seq<Json>): set<string>
    decreases items
  {
    if items == [] then {} else Mentions(table, items[0]) + MentionsItems(table, items[1..])
  }

  function MentionsEntries(table: map<string, Json>, entries: seq<Entry>): set<string>
    decreases entries
  {
    if entries == [] then {} else
      (if IsAnnotation(entries[0].key) then {} else Mentions(table, entries[0].value)) +
        MentionsEntries(table, entries[1..])
  }

  predicate Covers(defs: seq<Definition>, table: map<string, Json>) {
    forall d | d in defs :: d.name in table
  }

  /** The references counted are the references made. */
  lemma {:induction false} UsedMentioned(defs: seq<Definition>, table: map<string, Json>, v: Json,
                                         excluded: Option<string>)
    requires Covers(defs, table) && NoRef(table, v)
    ensures Mentions(table, Replace(defs, v, excluded)) == Used(defs, v, excluded)
    decreases v, 0
  {
    hide IsAnnotation, Pointed;
    match v
    case List(items) => ItemsMentioned(defs, table, items, excluded);
    case Object(entries) =>
      var found := Match(defs, Shape(entries), excluded);
      if found.None? {
        EntriesMentioned(defs, table, entries, excluded);
        TargetReplaced(defs, table, entries, excluded);
      } else {
        TargetReference(table, found.value, entries);
      }
    case _ =>
  }

  lemma {:induction false} ItemsMentioned(defs: seq<Definition>, table: map<string, Json>, items: seq<Json>,
                                          excluded: Option<string>)
    requires Covers(defs, table) && NoRefItems(table, items)
    ensures MentionsItems(table, ReplaceItems(defs, items, excluded)) == UsedItems(defs, items, excluded)
    decreases items, 0
  {
    hide Replace, Used, Mentions, NoRef;
    if items != [] {
      UsedMentioned(defs, table, items[0], excluded);
      ItemsMentioned(defs, table, items[1..], excluded);
      assert ReplaceItems(defs, items, excluded)[1..] == ReplaceItems(defs, items[1..], excluded);
    }
  }

  lemma {:induction false} EntriesMentioned(defs: seq<Definition>, table: map<string, Json>, entries: seq<Entry>,
                                            excluded: Option<string>)
    requires Covers(defs, table) && NoRefEntries(table, entries)
    ensures MentionsEntries(table, ReplaceEntries(defs, entries, excluded)) == UsedEntries(defs, entries, excluded)
    decreases entries, 0
  {
    hide Replace, Used, Mentions, NoRef, IsAnnotation;
    if entries != [] {
      if !IsAnnotation(entries[0].key) {
        UsedMentioned(defs, table, entries[0].value, excluded);
      }
      EntriesMentioned(defs, table, entries[1..], excluded);
      assert ReplaceEntries(defs, entries, excluded)[1..] == ReplaceEntries(defs, entries[1..], excluded);
    }
  }

  // ---------------------------------------------------------------- the document

  predicate IsLetter(c: char) {
    'A' <= c <= 'Z' || 'a' <= c <= 'z'
  }

  /** `/^[A-Za-z][A-Za-z0-9_-]*$/` */
  predicate ValidName(name: string) {
    && name != "" && IsLetter(name[0])
    && forall i | 0 < i < |name| :: IsLetter(name[i]) || '0' <= name[i] <= '9' || name[i] in "_-"
  }

  datatype Outcome = InvalidName(name: string) | Unused(names: seq<string>) | Document(entries: seq<Entry>)

  /** `{ ...entries, [key]: value }` */
  function WithKey(entries: seq<Entry>, key: string, value: Json): seq<Entry> {
    if entries == [] then [Entry(key, value)]
    else if entries[0].key == key then [Entry(key, value)] + entries[1..]
    else [entries[0]] + WithKey(entries[1..], key, value)
  }

  /** The definitions as they are written under `$defs`. */
  function CompactDefinitions(all: seq<Definition>, defs: seq<Definition>): seq<Entry> {
    if defs == [] then [] else
      [Entry(defs[0].name, Replace(all, Object(defs[0].shape), Some(defs[0].name)))] +
        CompactDefinitions(all, defs[1..])
  }

  function UsedByDefinitions(all: seq<Definition>, defs: seq<Definition>): set<string> {
    if defs == [] then {} else
      Used(all, Object(defs[0].shape), Some(defs[0].name)) + UsedByDefinitions(all, defs[1..])
  }

  /** The definitions, in order, that nothing refers to. */
  function UnusedNames(defs: seq<Definition>, used: set<string>): (r: seq<string>)
    ensures r == [] <==> forall d | d in defs :: d.name in used
    ensures forall name :: name in r <==> name !in used && exists d :: d in defs && d.name == name
  {
    if defs == [] then [] else (if defs[0].name in used then [] else [defs[0].name]) + UnusedNames(defs[1..], used)
  }

  /** What `addDefinitions` writes */
  function DocumentOf(schema: seq<Entry>, defs: seq<Definition>): seq<Entry>
  {
    WithKey(Replace(defs, Object(schema), None).entries, DEFS, Object(CompactDefinitions(defs, defs)))
  }

  /** Write `schema` with `$defs`: what repeats a definition becomes a reference with its own annotations. */
  method AddDefinitions(schema: seq<Entry>, definitions: seq<(string, seq<Entry>)>)
    returns (r: Outcome, ghost defs: seq<Definition>)
    ensures r.InvalidName? <==> exists i :: 0 <= i < |definitions| && !ValidName(definitions[i].0)
    ensures r.InvalidName? ==>
              exists i :: 0 <= i < |definitions| && definitions[i].0 == r.name && !ValidName(r.name)
                && forall k | 0 <= k < i :: ValidName(definitions[k].0)
    ensures !r.InvalidName? ==> Prepared(definitions, defs)
    ensures !r.InvalidName? ==>
              var used := Used(defs, Object(schema), None) + UsedByDefinitions(defs, defs);
              if forall d | d in defs :: d.name in used then
                r == Document(DocumentOf(schema, defs))
              else r == Unused(UnusedNames(defs, used))
  {
    hide Replace, Used, IsAnnotation, ValidName, Shape;
    var prepared: seq<Definition> := [];
    for i := 0 to |definitions|
      invariant Prepared(definitions[..i], prepared)
      invariant forall k | 0 <= k < i :: ValidName(definitions[k].0)
    {
      if !ValidName(definitions[i].0) {
        return InvalidName(definitions[i].0), prepared;
      }
      var shape, annotations := SplitAnnotations(definitions[i].1);
      prepared := prepared + [Definition(definitions[i].0, shape)];
    }
    assert definitions[..|definitions|] == definitions;
    defs := prepared;
    var compact := Replace(prepared, Object(schema), None);
    var unused := UnusedNames(prepared, Used(prepared, Object(schema), None) + UsedByDefinitions(prepared, prepared));
    if |unused| > 0 {
      return Unused(unused), defs;
    }
    return Document(WithKey(compact.entries, DEFS, Object(CompactDefinitions(prepared, prepared)))), defs;
  }

  /** Names with the shapes of their schemas. */
  predicate Prepared(definitions: seq<(string, seq<Entry>)>, defs: seq<Definition>) {
    && |defs| == |definitions|
    && forall i | 0 <= i < |defs| :: defs[i] == Definition(definitions[i].0, Shape(definitions[i].1))
  }

  function Lookup(entries: seq<Entry>, key: string): Option<Json> {
    if entries == [] then None else if entries[0].key == key then Some(entries[0].value) else Lookup(entries[1..], key)
  }

  function WithoutKey(entries: seq<Entry>, key: string): seq<Entry> {
    if entries == [] then []
    else if entries[0].key == key then WithoutKey(entries[1..], key)
    else [entries[0]] + WithoutKey(entries[1..], key)
  }

  function TableOf(entries: seq<Entry>): map<string, Json> {
    if entries == [] then map[] else TableOf(entries[1..])[entries[0].key := entries[0].value]
  }

  /** A reader of the document: expand everything but `$defs` with what `$defs` holds. */
  function ExpandDocument(document: seq<Entry>, fuel: nat): Option<Json> {
    match Lookup(document, DEFS)
    case Some(Object(entries)) => Expand(TableOf(entries), Object(WithoutKey(document, DEFS)), fuel)
    case _ => None
  }

  predicate HasKey(entries: seq<Entry>, key: string) {
    exists i :: 0 <= i < |entries| && entries[i].key == key
  }

  lemma {:induction false} WithKeyReads(entries: seq<Entry>, key: string, value: Json)
    requires !HasKey(entries, key)
    ensures Lookup(WithKey(entries, key, value), key) == Some(value)
    ensures WithoutKey(WithKey(entries, key, value), key) == entries
  {
    if entries != [] {
      assert forall i | 0 <= i < |entries[1..]| :: entries[1..][i] == entries[i + 1];
      WithKeyReads(entries[1..], key, value);
      assert WithKey(entries, key, value)[1..] == WithKey(entries[1..], key, value);
    }
  }

  predicate UniqueNames(defs: seq<Definition>) {
    forall i, j | 0 <= i < j < |defs| :: defs[i].name != defs[j].name
  }

  lemma {:induction false} CompactIsTable(all: seq<Definition>, defs: seq<Definition>)
    requires UniqueNames(defs)
    ensures var table := TableOf(CompactDefinitions(all, defs));
            && (forall i | 0 <= i < |defs| ::
                  && defs[i].name in table
                  && table[defs[i].name] == Replace(all, Object(defs[i].shape), Some(defs[i].name)))
            && (forall name | name in table :: exists i :: 0 <= i < |defs| && defs[i].name == name)
  {
    if defs != [] {
      hide Replace;
      CompactIsTable(all, defs[1..]);
      TableFirst(all, defs);
      var first := Replace(all, Object(defs[0].shape), Some(defs[0].name));
      hide TableOf, CompactDefinitions;
      TableMore(all, defs, TableOf(CompactDefinitions(all, defs[1..])), first);
    }
  }

  lemma TableMore(all: seq<Definition>, defs: seq<Definition>, rest: map<string, Json>, first: Json)
    requires UniqueNames(defs) && defs != [] && first == Replace(all, Object(defs[0].shape), Some(defs[0].name))
    requires forall i | 0 <= i < |defs[1..]| ::
               && defs[1..][i].name in rest
               && rest[defs[1..][i].name] == Replace(all, Object(defs[1..][i].shape), Some(defs[1..][i].name))
    requires forall name | name in rest :: exists i :: 0 <= i < |defs[1..]| && defs[1..][i].name == name
    ensures var table := rest[defs[0].name := first];
            && (forall i | 0 <= i < |defs| ::
                  && defs[i].name in table
                  && table[defs[i].name] == Replace(all, Object(defs[i].shape), Some(defs[i].name)))
            && (forall name | name in table :: exists i :: 0 <= i < |defs| && defs[i].name == name)
  {
    hide Replace;
    var table := rest[defs[0].name := first];
    forall i | 0 <= i < |defs|
      ensures defs[i].name in table
      ensures table[defs[i].name] == Replace(all, Object(defs[i].shape), Some(defs[i].name))
    {
      if i > 0 {
        assert defs[i] == defs[1..][i - 1];
      }
    }
    forall name | name in table ensures exists i :: 0 <= i < |defs| && defs[i].name == name {
      if name == defs[0].name {
        assert defs[0].name == name;
      } else {
        var i :| 0 <= i < |defs[1..]| && defs[1..][i].name == name;
        assert defs[i + 1].name == name;
      }
    }
  }

  lemma TableFirst(all: seq<Definition>, defs: seq<Definition>)
    requires defs != []
    ensures var first := Replace(all, Object(defs[0].shape), Some(defs[0].name));
            TableOf(CompactDefinitions(all, defs)) == TableOf(CompactDefinitions(all, defs[1..]))[defs[0].name := first]
  {
    hide Replace;
    assert CompactDefinitions(all, defs)[1..] == CompactDefinitions(all, defs[1..]);
  }

  lemma TableOfDefinitions(defs: seq<Definition>)
    requires UniqueNames(defs)
    ensures IsTable(defs, TableOf(CompactDefinitions(defs, defs))) && DistinctNames(defs)
  {
    hide Replace, CompactDefinitions, TableOf;
    CompactIsTable(defs, defs);
  }

  /** The keys of a compact object are those it had, and `$ref`. */
  lemma {:induction false} AnnotationsKeys(entries: seq<Entry>, key: string)
    requires HasKey(Annotations(entries), key)
    ensures HasKey(entries, key)
  {
    hide IsAnnotation;
    var i :| 0 <= i < |Annotations(entries)| && Annotations(entries)[i].key == key;
    if IsAnnotation(entries[0].key) && i == 0 {
    } else {
      if IsAnnotation(entries[0].key) {
        assert Annotations(entries)[i] == Annotations(entries[1..])[i - 1];
      }
      AnnotationsKeys(entries[1..], key);
      var j :| 0 <= j < |entries[1..]| && entries[1..][j].key == key;
      assert entries[j + 1].key == key;
    }
  }

  lemma CompactKeys(defs: seq<Definition>, schema: seq<Entry>)
    requires !HasKey(schema, DEFS)
    ensures Replace(defs, Object(schema), None).Object? && !HasKey(Replace(defs, Object(schema), None).entries, DEFS)
  {
    hide IsAnnotation;
    var compact := Replace(defs, Object(schema), None).entries;
    if Match(defs, Shape(schema), None).Some? {
      forall i | 0 < i < |compact| ensures compact[i].key != DEFS {
        assert compact[i] == Annotations(schema)[i - 1];
        if compact[i].key == DEFS {
          assert HasKey(Annotations(schema), DEFS);
          AnnotationsKeys(schema, DEFS);
        }
      }
    } else {
      forall i | 0 <= i < |compact| ensures compact[i].key != DEFS {
        assert compact[i].key == schema[i].key;
      }
    }
  }

  /** Definitions of equal shape refer to each other for ever. */
  lemma {:induction false} TwinsNeverExpand(defs: seq<Definition>, table: map<string, Json>, c: Definition,
                                            d: Definition, fuel: nat)
    requires IsTable(defs, table) && Shapes(defs)
    requires c in defs && d in defs && c.name != d.name && c.shape == d.shape
    ensures Expand(table, table[c.name], fuel).None?
    decreases fuel
  {
    hide IsAnnotation, Pointed, Target, WithoutRef;
    hide Replace, Match, Expand, Reference;
    var e := TwinReference(defs, table, c, d);
    TargetReference(table, e.name, []);
    ExpandReference(table, e.name, [], fuel);
    if fuel > 0 {
      TwinsNeverExpand(defs, table, e, c, fuel - 1);
    }
  }

  /** A definition with a twin is written as a reference to a twin. */
  lemma TwinReference(defs: seq<Definition>, table: map<string, Json>, c: Definition, d: Definition)
    returns (e: Definition)
    requires IsTable(defs, table) && Shapes(defs)
    requires c in defs && d in defs && c.name != d.name && c.shape == d.shape
    ensures e in defs && e.name != c.name && e.shape == c.shape
    ensures table[c.name] == Object([Reference(e.name)] + Annotations([]))
  {
    hide IsAnnotation, Reference;
    ShapeOfShape(c.shape);
    var name := Match(defs, c.shape, Some(c.name)).value;
    e :| e in defs && e.name == name && e.shape == c.shape && Some(c.name) != Some(e.name);
  }

  lemma ExpandReference(table: map<string, Json>, name: string, entries: seq<Entry>, fuel: nat)
    requires name in table && Target(table, [Reference(name)] + Annotations(entries)) == Some(name)
    ensures fuel == 0 || Expand(table, table[name], fuel - 1).None? ==>
              Expand(table, Object([Reference(name)] + Annotations(entries)), fuel).None?
  {
    hide Target, WithoutRef, Reference;
  }

  /** A replaced value that meets a definition with a twin is never expanded. */
  lemma {:induction false} TwinsNeverMean(defs: seq<Definition>, table: map<string, Json>, v: Json,
                                          excluded: Option<string>, fuel: nat)
    requires IsTable(defs, table) && DistinctNames(defs) && Shapes(defs) && NoRef(table, v) && !TwinFree(defs, v)
    ensures Expand(table, Replace(defs, v, excluded), fuel).None?
    decreases fuel, v, 1
  {
    match v
    case List(items) => ItemsNeverMean(defs, table, items, excluded, fuel);
    case Object(entries) =>
      if Match(defs, Shape(entries), excluded).Some? {
        ReferenceNeverMeans(defs, table, entries, excluded, fuel);
      } else {
        EntriesNeverMean(defs, table, entries, excluded, fuel);
        TargetReplaced(defs, table, entries, excluded);
      }
  }

  lemma {:induction false} ItemsNeverMean(defs: seq<Definition>, table: map<string, Json>, items: seq<Json>,
                                          excluded: Option<string>, fuel: nat)
    requires IsTable(defs, table) && DistinctNames(defs) && Shapes(defs) && NoRefItems(table, items)
    requires !TwinFreeItems(defs, items)
    ensures ExpandItems(table, ReplaceItems(defs, items, excluded), fuel).None?
    decreases fuel, items, 0
  {
    hide Replace, NoRef, TwinFree;
    assert ReplaceItems(defs, items, excluded)[1..] == ReplaceItems(defs, items[1..], excluded);
    if !TwinFree(defs, items[0]) {
      TwinsNeverMean(defs, table, items[0], excluded, fuel);
    } else {
      ItemsNeverMean(defs, table, items[1..], excluded, fuel);
    }
  }

  lemma {:induction false} EntriesNeverMean(defs: seq<Definition>, table: map<string, Json>, entries: seq<Entry>,
                                            excluded: Option<string>, fuel: nat)
    requires IsTable(defs, table) && DistinctNames(defs) && Shapes(defs) && NoRefEntries(table, entries)
    requires !TwinFreeEntries(defs, entries)
    ensures ExpandEntries(table, ReplaceEntries(defs, entries, excluded), fuel).None?
    decreases fuel, entries, 0
  {
    hide Replace, NoRef, TwinFree, IsAnnotation;
    assert ReplaceEntries(defs, entries, excluded)[1..] == ReplaceEntries(defs, entries[1..], excluded);
    if !IsAnnotation(entries[0].key) && !TwinFree(defs, entries[0].value) {
      TwinsNeverMean(defs, table, entries[0].value, excluded, fuel);
    } else {
      EntriesNeverMean(defs, table, entries[1..], excluded, fuel);
    }
  }

  lemma {:induction false} ReferenceNeverMeans(defs: seq<Definition>, table: map<string, Json>, entries: seq<Entry>,
                                               excluded: Option<string>, fuel: nat)
    requires IsTable(defs, table) && DistinctNames(defs) && Shapes(defs) && NoRef(table, Object(entries))
    requires !TwinFree(defs, Object(entries)) && Match(defs, Shape(entries), excluded).Some?
    ensures Expand(table, Replace(defs, Object(entries), excluded), fuel).None?
    decreases fuel, entries, 0
  {
    hide IsTable, DistinctNames, Shapes, TwinFree, NoRef, Twins, Shape, Target, Reference, Annotations;
    hide Expand, Replace, Match;
    var d := Matched(defs, table, Shape(entries), excluded);
    var shape, name := d.shape, d.name;
    TargetReference(table, name, entries);
    ReplacedByReference(defs, entries, excluded);
    ExpandReference(table, name, entries, fuel);
    if fuel > 0 {
      if Twins(defs, shape) {
        var c := Twin(defs, d);
        TwinsNeverExpand(defs, table, d, c, fuel - 1);
      } else {
        DefinitionNeverMeans(defs, table, d, entries, fuel - 1);
      }
    }
  }

  /** A definition without a twin that meets one */
  lemma {:induction false} DefinitionNeverMeans(defs: seq<Definition>, table: map<string, Json>, d: Definition,
                                                entries: seq<Entry>, fuel: nat)
    requires IsTable(defs, table) && DistinctNames(defs) && Shapes(defs) && NoRef(table, Object(entries))
    requires d in defs && d.shape == Shape(entries) && !Twins(defs, d.shape) && !TwinFree(defs, Object(entries))
    ensures Expand(table, table[d.name], fuel).None?
    decreases fuel, Object(d.shape), 2
  {
    hide Expand, Replace, IsAnnotation, Target, Twins;
    TwinFreeShape(defs, entries);
    ShapeOfShape(d.shape);
    NoRefShape(table, entries);
    TargetShape(table, entries);
    TwinsNeverMean(defs, table, Object(d.shape), Some(d.name), fuel);
  }

  lemma Matched(defs: seq<Definition>, table: map<string, Json>, shape: seq<Entry>, excluded: Option<string>)
    returns (d: Definition)
    requires IsTable(defs, table) && Match(defs, shape, excluded).Some?
    ensures d in defs && d.shape == shape && Match(defs, shape, excluded) == Some(d.name) && d.name in table
  {
    hide Replace;
    d :| d in defs && d.name == Match(defs, shape, excluded).value && d.shape == shape;
  }

  lemma ReplacedByReference(defs: seq<Definition>, entries: seq<Entry>, excluded: Option<string>)
    requires Match(defs, Shape(entries), excluded).Some?
    ensures Replace(defs, Object(entries), excluded) ==
            Object([Reference(Match(defs, Shape(entries), excluded).value)] + Annotations(entries))
  {
    hide IsAnnotation, ReplaceEntries, Reference, Annotations;
  }

  lemma Twin(defs: seq<Definition>, d: Definition) returns (c: Definition)
    requires d in defs && Twins(defs, d.shape)
    ensures c in defs && c.name != d.name && c.shape == d.shape
  {
    var a, b :| a in defs && b in defs && a.name != b.name && a.shape == d.shape && b.shape == d.shape;
    c := if a.name != d.name then a else b;
  }

  ghost predicate DocumentExpands(document: seq<Entry>) {
    exists fuel: nat :: ExpandDocument(document, fuel).Some?
  }

  /**
   * The document can be expanded exactly when no object of the schema has the shape of two definitions, and then it
   * means what the schema did.
   */
  lemma DocumentMeansIff(schema: seq<Entry>, defs: seq<Definition>)
    requires UniqueNames(defs) && Shapes(defs) && !HasKey(schema, DEFS)
    requires NoRef(TableOf(CompactDefinitions(defs, defs)), Object(schema))
    ensures DocumentExpands(DocumentOf(schema, defs)) <==> TwinFree(defs, Object(schema))
    ensures TwinFree(defs, Object(schema)) ==> forall fuel: nat | fuel >= Size(Object(schema)) ::
              var document := DocumentOf(schema, defs);
              && ExpandDocument(document, fuel).Some?
              && Canon(ExpandDocument(document, fuel).value) == Canon(Object(schema))
  {
    hide Replace, CompactDefinitions, TableOf, Expand, Canon, NoRef, IsAnnotation, Size, TwinFree;
    TableOfDefinitions(defs);
    CompactKeys(defs, schema);
    WithKeyReads(Replace(defs, Object(schema), None).entries, DEFS, Object(CompactDefinitions(defs, defs)));
    var table := TableOf(CompactDefinitions(defs, defs));
    if TwinFree(defs, Object(schema)) {
      forall fuel: nat | fuel >= Size(Object(schema))
        ensures ExpandDocument(DocumentOf(schema, defs), fuel).Some?
        ensures Canon(ExpandDocument(DocumentOf(schema, defs), fuel).value) == Canon(Object(schema))
      {
        ExpandsBack(defs, table, Object(schema), None, fuel);
      }
      assert ExpandDocument(DocumentOf(schema, defs), Size(Object(schema))).Some?;
    } else {
      forall fuel: nat ensures ExpandDocument(DocumentOf(schema, defs), fuel).None? {
        TwinsNeverMean(defs, table, Object(schema), None, fuel);
      }
    }
  }

  lemma PlainNoRef(table: map<string, Json>, key: string, text: string)
    requires key != REF
    ensures NoRef(table, Object([Entry(key, Str(text))]))
  {
    assert NoRef(table, Str(text));
    assert [Entry(key, Str(text))][1..] == [];
  }

  /** Two definitions of one shape count as used, by a schema of that shape and by each other. */
  lemma TwinsUsed(a: Definition, b: Definition)
    requires IsShape(a.shape) && a.name != b.name && a.shape == b.shape
    ensures Twins([a, b], a.shape) && UniqueNames([a, b]) && Shapes([a, b])
    ensures Used([a, b], Object(a.shape), None) == {a.name}
    ensures UsedByDefinitions([a, b], [a, b]) == {a.name, b.name}
  {
    hide IsAnnotation, UsedEntries;
    var defs := [a, b];
    assert defs[0] == a && defs[1..] == [b] && [b][1..] == [];
    ShapeOfShape(a.shape);
    assert Match(defs, a.shape, Some(a.name)) == Match([b], a.shape, Some(a.name)) == Some(b.name);
    assert UsedByDefinitions(defs, []) == {} && UsedByDefinitions(defs, [b]) == {a.name};
    assert a in defs && b in defs;
  }

  /** Such a document is written. */
  method TwinsAccepted() returns (r: Outcome)
    ensures r.Document? && !DocumentExpands(r.entries)
  {
    hide Used, UsedByDefinitions, CompactDefinitions, TableOf, NoRef, Twins, Shape, Replace;
    var shape := [Entry("type", Str("string"))];
    ghost var defs;
    r, defs := AddDefinitions(shape, [("A", shape), ("B", shape)]);
    ghost var a, b := Definition("A", shape), Definition("B", shape);
    ShapeOfShape(shape);
    assert r.Document? || r.Unused? by {
      assert ValidName("A") && ValidName("B");
    }
    assert defs == [a, b];
    TwinsUsed(a, b);
    assert "type"[0] != REF[0] && "type"[0] != DEFS[0];
    PlainNoRef(TableOf(CompactDefinitions(defs, defs)), "type", "string");
    DocumentMeansIff(shape, defs);
  }

  ghost predicate Expands(table: map<string, Json>, name: string) {
    name in table && exists fuel: nat :: Expand(table, table[name], fuel).Some?
  }

  /** Every definition can be expanded exactly when no two have the same shape. */
  lemma DefinitionsExpandIff(defs: seq<Definition>)
    requires UniqueNames(defs) && Shapes(defs)
    requires var table := TableOf(CompactDefinitions(defs, defs)); forall d | d in defs :: NoRef(table, Object(d.shape))
    ensures (forall d | d in defs :: Expands(TableOf(CompactDefinitions(defs, defs)), d.name)) <==> DistinctShapes(defs)
  {
    hide IsAnnotation, Replace, CompactDefinitions, TableOf, Expand, Canon;
    TableOfDefinitions(defs);
    var table := TableOf(CompactDefinitions(defs, defs));
    if DistinctShapes(defs) {
      forall d | d in defs ensures Expands(table, d.name) {
        assert NoRef(table, Object(d.shape));
        EntriesTwinFree(defs, d.shape);
        DefinitionBack(defs, table, d.name, d.shape, SizeEntries(d.shape));
      }
    } else {
      var c, d :| c in defs && d in defs && c.shape == d.shape && c.name != d.name;
      forall fuel: nat ensures Expand(table, table[c.name], fuel).None? {
        TwinsNeverExpand(defs, table, c, d, fuel);
      }
      assert !Expands(table, c.name);
    }
  }
}
