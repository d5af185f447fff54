/**
 * The type renderer of tool declarations: it expands local references, at most 32 of them and none inside itself.
 *
 * A schema is read as a form with its sub-schemas in the order they are rendered. Rendering terminates on every
 * schema, and where the references can be inlined within the budget it renders what the inlined schema renders.
 */
module Declarations {

  datatype Option<T> = None | Some(value: T)

  const MAX_REF_EXPANSIONS: nat := 32

  datatype Form =
    | Fixed(text: string)                                              // a type without sub-schemas
    | AnyOf
    | AllOf
    | ArrayOf
    | TupleOf
    | ObjectOf(keys: seq<string>)                                      // with `?` and quotes, or an index signature

  /** `{ ...schema, type: entry }` for every entry of a list of types is an `AnyOf`. */
  datatype Schema = Ref(ref: string) | Node(form: Form, children: seq<Schema>)

  /** What `resolveRef` finds in the root schema */
  type Root = map<string, Schema>

  // ---------------------------------------------------------------- types as text

  function Join(parts: seq<string>, separator: string): string {
    if parts == [] then "" else if |parts| == 1 then parts[0] else
      Join(parts[..|parts| - 1], separator) + separator + parts[|parts| - 1]
  }

  function Unique(types: seq<string>): seq<string> {
    if types == [] then [] else
      var before := types[..|types| - 1];
      if types[|types| - 1] in before then Unique(before) else Unique(before) + [types[|types| - 1]]
  }

  function Union(types: seq<string>): string {
    if "unknown" in types then "unknown" else if types == [] then "never" else Join(Unique(types), " | ")
  }

  predicate Contains(s: string, part: string) {
    part <= s || (s != "" && Contains(s[1..], part))
  }

  function Wrapped(types: seq<string>): seq<string> {
    if types == [] then [] else
      var t := types[|types| - 1];
      var before := Wrapped(types[..|types| - 1]);
      if t == "unknown" then before else before + [if Contains(t, " | ") then "(" + t + ")" else t]
  }

  function Members(keys: seq<string>, types: seq<string>): seq<string>
    requires |keys| == |types|
  {
    if keys == [] then [] else
      Members(keys[..|keys| - 1], types[..|keys| - 1]) + [keys[|keys| - 1] + ": " + types[|keys| - 1] + ";"]
  }

  /** The type of a form whose sub-schemas have these types */
  function Assemble(form: Form, types: seq<string>): string {
    match form
    case Fixed(text) => text
    case AnyOf => Union(types)
    case AllOf => if Wrapped(types) == [] then "unknown" else Join(Wrapped(types), " & ")
    case ArrayOf => "Array<" + Join(types, ", ") + ">"
    case TupleOf => if types == [] then "unknown[]" else "[" + Join(types, ", ") + "]"
    case ObjectOf(keys) =>
      if |keys| != |types| then "unknown"
      else if keys == [] then "{}"
      else "{ " + Join(Members(keys, types), " ") + " }"
  }

  /** The parts are in order, with the separator between every two of them. */
  lemma {:induction false} JoinConcat(a: seq<string>, b: seq<string>, separator: string)
    requires a != [] && b != []
    ensures Join(a + b, separator) == Join(a, separator) + separator + Join(b, separator)
  {
    hide Join;
    var n := |b| - 1;
    assert a + b == (a + b[..n]) + [b[n]] && b == b[..n] + [b[n]];
    JoinNext(a + b[..n], b[n], separator);
    JoinNext(b[..n], b[n], separator);
    if n > 0 {
      JoinConcat(a, b[..n], separator);
    } else {
      assert a + b[..n] == a;
    }
  }

  lemma JoinNext(parts: seq<string>, last: string, separator: string)
    ensures Join(parts + [last], separator) == if parts == [] then last else Join(parts, separator) + separator + last
  {
    assert (parts + [last])[..|parts|] == parts;
  }

  /** Every type once, where it first occurs */
  lemma {:induction false} UniqueReads(types: seq<string>, more: seq<string>)
    ensures Unique(types) <= Unique(types + more)
    ensures forall t :: t in Unique(types + more) <==> t in types || t in more
    ensures forall i, j | 0 <= i < j < |Unique(types + more)| :: Unique(types + more)[i] != Unique(types + more)[j]
    decreases |types|, |more|
  {
    var all := types + more;
    if more != [] {
      var n := |more| - 1;
      UniqueReads(types, more[..n]);
      assert all[..|all| - 1] == types + more[..n] && all[|all| - 1] == more[n];
      assert forall t :: t in more <==> t in more[..n] || t == more[n];
    } else if types != [] {
      var n := |types| - 1;
      UniqueReads(types[..n], [types[n]]);
      assert all == types && types[..n] + [types[n]] == types;
    }
  }

  /** Parts of an intersection: `unknown` says nothing, and a union stands in parentheses. */
  lemma {:induction false} WrappedConcat(a: seq<string>, b: seq<string>)
    ensures Wrapped(a + b) == Wrapped(a) + Wrapped(b)
  {
    hide Wrapped;
    if b == [] {
      WrappedNone();
      assert a + b == a;
    } else {
      var n := |b| - 1;
      WrappedConcat(a, b[..n]);
      WrappedNext(a + b[..n], b[n]);
      WrappedNext(b[..n], b[n]);
      assert (a + b[..n]) + [b[n]] == a + b && b[..n] + [b[n]] == b;
    }
  }

  lemma WrappedNone()
    ensures Wrapped([]) == []
  {
  }

  lemma WrappedNext(types: seq<string>, t: string)
    ensures Wrapped(types + [t]) == Wrapped(types) + Wrapped([t])
    ensures Wrapped([t]) == if t == "unknown" then [] else if Contains(t, " | ") then ["(" + t + ")"] else [t]
  {
    hide Contains;
    assert (types + [t])[..|types|] == types;
  }

  /** A text contains what lies anywhere in it, and nothing else. */
  lemma {:induction false} ContainsPart(before: string, part: string, after: string)
    ensures Contains(before + part + after, part)
  {
    var s := before + part + after;
    if before == "" {
      assert s == part + after;
      assert s[..|part|] == part;
    } else {
      ContainsPart(before[1..], part, after);
      assert s[1..] == before[1..] + part + after;
    }
  }

  lemma {:induction false} ContainedAt(s: string, part: string) returns (at: nat)
    requires Contains(s, part)
    ensures at + |part| <= |s| && s[at..at + |part|] == part
  {
    if part <= s {
      at := 0;
    } else {
      at := ContainedAt(s[1..], part);
      assert s[1..][at..at + |part|] == s[at + 1..at + 1 + |part|];
      at := at + 1;
    }
  }

  /** A member a key, with its own type, in their order */
  lemma {:induction false} MembersRead(keys: seq<string>, types: seq<string>, i: nat)
    requires |keys| == |types| && i < |keys|
    ensures |Members(keys, types)| == |keys| && Members(keys, types)[i] == keys[i] + ": " + types[i] + ";"
  {
    var n := |keys| - 1;
    if i < n {
      MembersRead(keys[..n], types[..n], i);
    } else if n > 0 {
      MembersRead(keys[..n], types[..n], 0);
    }
  }

  lemma AssembleReads(types: seq<string>, keys: seq<string>)
    ensures Assemble(AnyOf, types) ==
            if "unknown" in types then "unknown" else if types == [] then "never" else Join(Unique(types), " | ")
    ensures Assemble(AllOf, types) == if Wrapped(types) == [] then "unknown" else Join(Wrapped(types), " & ")
    ensures Assemble(TupleOf, types) == if types == [] then "unknown[]" else "[" + Join(types, ", ") + "]"
    ensures |types| == 1 ==> Assemble(ArrayOf, types) == "Array<" + types[0] + ">"
    ensures |keys| == |types| ==>
              Assemble(ObjectOf(keys), types) ==
              if keys == [] then "{}" else "{ " + Join(Members(keys, types), " ") + " }"
  {
  }

  // ---------------------------------------------------------------- sizes

  function Size(s: Schema): nat
    decreases s
  {
    if s.Ref? then 1 else 1 + SizeAll(s.children)
  }

  function SizeAll(all: seq<Schema>): nat
    decreases all
  {
    if all == [] then 0 else SizeAll(all[..|all| - 1]) + Size(all[|all| - 1])
  }

  // ---------------------------------------------------------------- rendering

  /** A type, and the number of expansions after it */
  datatype Rendered = Rendered(text: string, expansions: nat)
  datatype AllRendered = AllRendered(texts: seq<string>, expansions: nat)

  function Render(root: Root, s: Schema, resolving: set<string>, n: nat): (r: Rendered)
    ensures n <= r.expansions && (n <= MAX_REF_EXPANSIONS ==> r.expansions <= MAX_REF_EXPANSIONS)
    decreases if n <= MAX_REF_EXPANSIONS then MAX_REF_EXPANSIONS - n else 0, Size(s), 0
  {
    match s
    case Ref(ref) =>
      if ref in resolving || n >= MAX_REF_EXPANSIONS || ref !in root then Rendered("unknown", n)
      else Render(root, root[ref], resolving + {ref}, n + 1)
    case Node(form, children) =>
      var all := RenderAll(root, children, resolving, n);
      Rendered(Assemble(form, all.texts), all.expansions)
  }

  function RenderAll(root: Root, all: seq<Schema>, resolving: set<string>, n: nat): (r: AllRendered)
    ensures n <= r.expansions && (n <= MAX_REF_EXPANSIONS ==> r.expansions <= MAX_REF_EXPANSIONS)
    decreases if n <= MAX_REF_EXPANSIONS then MAX_REF_EXPANSIONS - n else 0, SizeAll(all), 1 + |all|
  {
    if all == [] then AllRendered([], n) else
      var before := RenderAll(root, all[..|all| - 1], resolving, n);
      var last := Render(root, all[|all| - 1], resolving, before.expansions);
      AllRendered(before.texts + [last.text], last.expansions)
  }

  /** `toType` and what it calls, over the context they share */
  class Renderer {
    const root: Root
    var resolving: set<string>
    var expansions: nat

    constructor (root: Root)
      ensures this.root == root && resolving == {} && expansions == 0
    {
      this.root, resolving, expansions := root, {}, 0;
    }

    /** The references being expanded are those of the caller again when it returns. */
    method ToType(s: Schema) returns (text: string)
      requires expansions <= MAX_REF_EXPANSIONS
      modifies this
      ensures resolving == old(resolving) && old(expansions) <= expansions <= 32
      ensures Rendered(text, expansions) == old(Render(root, s, resolving, expansions))
      decreases MAX_REF_EXPANSIONS - expansions, Size(s), 0
    {
      hide Assemble;
      match s {
        case Ref(ref) =>
          if ref in resolving || expansions >= MAX_REF_EXPANSIONS || ref !in root {
            return "unknown";
          }
          expansions := expansions + 1;
          resolving := resolving + {ref};
          text := ToType(root[ref]);
          resolving := resolving - {ref};
        case Node(form, children) =>
          var texts := ToTypes(children);
          text := Assemble(form, texts);
      }
    }

    method ToTypes(all: seq<Schema>) returns (texts: seq<string>)
      requires expansions <= MAX_REF_EXPANSIONS
      modifies this
      ensures resolving == old(resolving) && old(expansions) <= expansions <= MAX_REF_EXPANSIONS
      ensures AllRendered(texts, expansions) == old(RenderAll(root, all, resolving, expansions))
      decreases MAX_REF_EXPANSIONS - expansions, SizeAll(all), 1 + |all|
    {
      hide Assemble, Render;
      texts := [];
      ghost var start := expansions;
      for i := 0 to |all|
        invariant resolving == old(resolving) && start <= expansions <= MAX_REF_EXPANSIONS
        invariant AllRendered(texts, expansions) == RenderAll(root, all[..i], resolving, start)
      {
        SizeOf(all, i);
        assert all[..i + 1][..i] == all[..i];
        var text := ToType(all[i]);
        texts := texts + [text];
      }
      assert all[..|all|] == all;
    }
  }

  lemma {:induction false} SizeOf(all: seq<Schema>, i: nat)
    requires i < |all|
    ensures Size(all[i]) <= SizeAll(all)
  {
    if i < |all| - 1 {
      SizeOf(all[..|all| - 1], i);
    }
  }

  // ---------------------------------------------------------------- inlining

  /** The schema with every reference replaced by what it stands for; none when they nest deeper than `depth`. */
  function Inline(root: Root, s: Schema, depth: nat): Option<Schema>
    decreases depth, Size(s), 0
  {
    match s
    case Ref(ref) => if depth == 0 || ref !in root then None else Inline(root, root[ref], depth - 1)
    case Node(form, children) =>
      var all := InlineAll(root, children, depth);
      if all.None? then None else Some(Node(form, all.value))
  }

  function InlineAll(root: Root, all: seq<Schema>, depth: nat): Option<seq<Schema>>
    decreases depth, SizeAll(all), 1 + |all|
  {
    if all == [] then Some([]) else
      var before := InlineAll(root, all[..|all| - 1], depth);
      var last := Inline(root, all[|all| - 1], depth);
      if before.None? || last.None? then None else Some(before.value + [last.value])
  }

  /** How many references are replaced */
  function Needs(root: Root, s: Schema, depth: nat): nat
    decreases depth, Size(s), 0
  {
    match s
    case Ref(ref) => if depth == 0 || ref !in root then 0 else 1 + Needs(root, root[ref], depth - 1)
    case Node(_, children) => NeedsAll(root, children, depth)
  }

  function NeedsAll(root: Root, all: seq<Schema>, depth: nat): nat
    decreases depth, SizeAll(all), 1 + |all|
  {
    if all == [] then 0 else NeedsAll(root, all[..|all| - 1], depth) + Needs(root, all[|all| - 1], depth)
  }

  /** A schema can be inlined exactly if all of its parts can, each reference within one level less. */
  lemma InlineReads(root: Root, form: Form, children: seq<Schema>, ref: string, depth: nat)
    ensures var s := Inline(root, Node(form, children), depth);
            && (s.Some? <==> forall i | 0 <= i < |children| :: Inline(root, children[i], depth).Some?)
            && (s.Some? ==>
                  && s.value.Node? && s.value.form == form && |s.value.children| == |children|
                  && forall i | 0 <= i < |children| ::
                       Inline(root, children[i], depth) == Some(s.value.children[i]))
    ensures Inline(root, Ref(ref), 0).None?
    ensures Inline(root, Ref(ref), depth + 1) == if ref in root then Inline(root, root[ref], depth) else None
  {
    InlineAllReads(root, children, depth);
  }

  lemma {:induction false} InlineAllReads(root: Root, all: seq<Schema>, depth: nat)
    ensures var r := InlineAll(root, all, depth);
            && (r.Some? <==> forall i | 0 <= i < |all| :: Inline(root, all[i], depth).Some?)
            && (r.Some? ==>
                  && |r.value| == |all|
                  && forall i | 0 <= i < |all| :: Inline(root, all[i], depth) == Some(r.value[i]))
  {
    hide Inline;
    if all != [] {
      var n := |all| - 1;
      InlineAllReads(root, all[..n], depth);
      assert forall i | 0 <= i < n :: all[i] == all[..n][i];
    }
  }

  lemma {:induction false} InlineDeeper(root: Root, s: Schema, depth: nat, deeper: nat)
    requires depth <= deeper && Inline(root, s, depth).Some?
    ensures Inline(root, s, deeper) == Inline(root, s, depth) && Needs(root, s, deeper) == Needs(root, s, depth)
    decreases depth, Size(s), 0
  {
    match s
    case Ref(ref) => InlineDeeper(root, root[ref], depth - 1, deeper - 1);
    case Node(_, children) => InlineAllDeeper(root, children, depth, deeper);
  }

  lemma {:induction false} InlineAllDeeper(root: Root, all: seq<Schema>, depth: nat, deeper: nat)
    requires depth <= deeper && InlineAll(root, all, depth).Some?
    ensures InlineAll(root, all, deeper) == InlineAll(root, all, depth)
    ensures NeedsAll(root, all, deeper) == NeedsAll(root, all, depth)
    decreases depth, SizeAll(all), 1 + |all|
  {
    hide Inline, Needs;
    if all != [] {
      InlineAllDeeper(root, all[..|all| - 1], depth, deeper);
      InlineDeeper(root, all[|all| - 1], depth, deeper);
    }
  }

  /** The least depth that suffices */
  lemma {:induction false} LeastDepth(root: Root, s: Schema, depth: nat) returns (least: nat)
    requires Inline(root, s, depth).Some?
    ensures least <= depth && Inline(root, s, least).Some? && (least > 0 ==> Inline(root, s, least - 1).None?)
  {
    hide Inline;
    if depth > 0 && Inline(root, s, depth - 1).Some? {
      least := LeastDepth(root, s, depth - 1);
    } else {
      least := depth;
    }
  }

  /** What is inlined has no references, so it renders the same whatever the context. */
  lemma {:induction false} InlinedAnywhere(root: Root, s: Schema, depth: nat, resolving: set<string>, n: nat)
    requires Inline(root, s, depth).Some?
    ensures Render(root, Inline(root, s, depth).value, resolving, n) ==
            Rendered(Render(root, Inline(root, s, depth).value, {}, 0).text, n)
    decreases depth, Size(s), 0
  {
    hide Assemble;
    match s
    case Ref(ref) => InlinedAnywhere(root, root[ref], depth - 1, resolving, n);
    case Node(_, children) =>
      AllInlinedAnywhere(root, children, depth, resolving, n);
      AllInlinedAnywhere(root, children, depth, {}, 0);
  }

  lemma {:induction false} AllInlinedAnywhere(root: Root, all: seq<Schema>, depth: nat, resolving: set<string>, n: nat)
    requires InlineAll(root, all, depth).Some?
    ensures RenderAll(root, InlineAll(root, all, depth).value, resolving, n) ==
            AllRendered(RenderAll(root, InlineAll(root, all, depth).value, {}, 0).texts, n)
    decreases depth, SizeAll(all), 1 + |all|
  {
    hide Inline, Render;
    if all != [] {
      var before, last := all[..|all| - 1], all[|all| - 1];
      var inlined := InlineAll(root, all, depth).value;
      AllInlinedAnywhere(root, before, depth, resolving, n);
      AllInlinedAnywhere(root, before, depth, {}, 0);
      InlinedAnywhere(root, last, depth, resolving, n);
      InlinedAnywhere(root, last, depth, {}, 0);
      assert inlined[..|inlined| - 1] == InlineAll(root, before, depth).value;
    }
  }

  /**
   * A schema whose references can be inlined, in what is left of the budget, renders as the inlined one does: the
   * test for recursive references never refuses one that is not recursive.
   */
  lemma {:induction false} RendersInlined(root: Root, s: Schema, depth: nat, resolving: set<string>, n: nat)
    requires Inline(root, s, depth).Some? && n + Needs(root, s, depth) <= 32
    requires forall ref | ref in resolving :: Inline(root, Ref(ref), depth).None?
    ensures Render(root, s, resolving, n) ==
            Rendered(Render(root, Inline(root, s, depth).value, {}, 0).text, n + Needs(root, s, depth))
    decreases depth, Size(s), 0
  {
    hide Assemble;
    match s
    case Ref(ref) =>
      var least := LeastDepth(root, s, depth);
      InlineDeeper(root, s, least, depth);
      forall q | q in resolving + {ref} ensures Inline(root, Ref(q), least - 1).None? {
        if q != ref && Inline(root, Ref(q), least - 1).Some? {
          InlineDeeper(root, Ref(q), least - 1, depth);
        }
      }
      RendersInlined(root, root[ref], least - 1, resolving + {ref}, n + 1);
    case Node(_, children) =>
      AllRenderInlined(root, children, depth, resolving, n);
  }

  lemma {:induction false} AllRenderInlined(root: Root, all: seq<Schema>, depth: nat, resolving: set<string>, n: nat)
    requires InlineAll(root, all, depth).Some? && n + NeedsAll(root, all, depth) <= MAX_REF_EXPANSIONS
    requires forall ref | ref in resolving :: Inline(root, Ref(ref), depth).None?
    ensures RenderAll(root, all, resolving, n) ==
            AllRendered(RenderAll(root, InlineAll(root, all, depth).value, {}, 0).texts, n + NeedsAll(root, all, depth))
    decreases depth, SizeAll(all), 1 + |all|
  {
    hide Inline, Render, Needs;
    if all != [] {
      var before, last := all[..|all| - 1], all[|all| - 1];
      var inlined := InlineAll(root, all, depth).value;
      var used := NeedsAll(root, before, depth);
      AllRenderInlined(root, before, depth, resolving, n);
      RendersInlined(root, last, depth, resolving, n + used);
      AllInlinedAnywhere(root, before, depth, {}, 0);
      assert inlined[..|inlined| - 1] == InlineAll(root, before, depth).value;
    }
  }
}
