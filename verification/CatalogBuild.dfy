/**
 * `buildCatalog`: every provider's models, built on demand from the models of other providers.
 *
 * A provider's hook is a pure function of the models it asked for so far. `Eval` says what a provider's models are,
 * by plain recursion to a depth; the memoised depth-first build finds exactly that, or fails exactly when there is
 * no such thing.
 */
module CatalogBuild {

  type Id = string

  datatype Model = Model(provider: Id, id: string, body: nat)

  type Models = seq<Model>

  /** What a hook does next, given the answers so far. */
  datatype Next = Ask(id: Id) | Return(models: Models) | Throw

  /** A hook asks at most `asks` times. */
  datatype Definition = Definition(asks: nat, hook: seq<Models> -> Next)

  ghost predicate Finite(d: Definition) {
    forall answers | |answers| >= d.asks :: !d.hook(answers).Ask?
  }

  datatype Failure = Unknown(id: Id) | Thrown(id: Id) | Foreign(id: Id) | Cyclic(id: Id)

  datatype Built = Built(models: Models) | Failed(failure: Failure)

  /** `Deep`: not decided within the depth. */
  datatype Value = Models(models: Models) | Wrong(failure: Failure) | Deep

  type Definitions = map<Id, Definition>

  ghost predicate Sound(defs: Definitions) {
    forall id | id in defs :: Finite(defs[id])
  }

  // ---------------------------------------------------------------- what a provider's models are

  predicate Owns(id: Id, models: Models) {
    forall i | 0 <= i < |models| :: models[i].provider == id
  }

  ghost function Eval(defs: Definitions, id: Id, depth: nat): Value
    requires Sound(defs)
    decreases depth, 1, 0
  {
    if id !in defs then Wrong(Unknown(id))
    else if depth == 0 then Deep
    else EvalHook(defs, id, [], depth)
  }

  ghost function EvalHook(defs: Definitions, id: Id, answers: seq<Models>, depth: nat): Value
    requires Sound(defs) && id in defs && depth > 0
    decreases depth, 0, if |answers| <= defs[id].asks then defs[id].asks - |answers| else 0
  {
    match defs[id].hook(answers)
    case Return(models) => if Owns(id, models) then Models(models) else Wrong(Foreign(id))
    case Throw => Wrong(Thrown(id))
    case Ask(q) =>
      assert Finite(defs[id]);
      match Eval(defs, q, depth - 1)
      case Models(models) => EvalHook(defs, id, answers + [models], depth)
      case other => other
  }

  /** A decided value stays decided at greater depth. */
  lemma {:induction false} EvalDeeper(defs: Definitions, id: Id, depth: nat, deeper: nat)
    requires Sound(defs) && depth <= deeper && !Eval(defs, id, depth).Deep?
    ensures Eval(defs, id, deeper) == Eval(defs, id, depth)
    decreases depth, 1, 0
  {
    if id in defs {
      HookDeeper(defs, id, [], depth, deeper);
    }
  }

  lemma {:induction false} HookDeeper(defs: Definitions, id: Id, answers: seq<Models>, depth: nat, deeper: nat)
    requires Sound(defs) && id in defs && 0 < depth <= deeper && !EvalHook(defs, id, answers, depth).Deep?
    ensures EvalHook(defs, id, answers, deeper) == EvalHook(defs, id, answers, depth)
    decreases depth, 0, if |answers| <= defs[id].asks then defs[id].asks - |answers| else 0
  {
    match defs[id].hook(answers)
    case Ask(q) =>
      assert Finite(defs[id]);
      EvalDeeper(defs, q, depth - 1, deeper - 1);
      if Eval(defs, q, depth - 1).Models? {
        HookDeeper(defs, id, answers + [Eval(defs, q, depth - 1).models], depth, deeper);
      }
    case _ =>
  }

  ghost predicate HasValue(defs: Definitions, id: Id, models: Models)
    requires Sound(defs)
  {
    exists depth: nat :: Eval(defs, id, depth) == Models(models)
  }

  ghost predicate HasFailure(defs: Definitions, id: Id, failure: Failure)
    requires Sound(defs)
  {
    exists depth: nat :: Eval(defs, id, depth) == Wrong(failure)
  }

  lemma ValueUnique(defs: Definitions, id: Id, a: Models, b: Models)
    requires Sound(defs) && HasValue(defs, id, a) && HasValue(defs, id, b)
    ensures a == b
  {
    var i: nat, j: nat :| Eval(defs, id, i) == Models(a) && Eval(defs, id, j) == Models(b);
    if i <= j {
      EvalDeeper(defs, id, i, j);
    } else {
      EvalDeeper(defs, id, j, i);
    }
  }

  /** The hook of `id` gets `answers`, each the models of the provider it asked for. */
  ghost predicate Answered(defs: Definitions, id: Id, answers: seq<Models>)
    requires Sound(defs) && id in defs
  {
    forall k | 0 <= k < |answers| ::
      defs[id].hook(answers[..k]).Ask? && HasValue(defs, defs[id].hook(answers[..k]).id, answers[k])
  }

  /** `id` needs the models of `q`. */
  ghost predicate Asks(defs: Definitions, id: Id, q: Id)
    requires Sound(defs)
  {
    id in defs && exists answers :: Answered(defs, id, answers) && defs[id].hook(answers) == Ask(q)
  }

  /** Once the first answers are known, evaluation continues after them. */
  lemma {:induction false} Resumes(defs: Definitions, id: Id, answers: seq<Models>, k: nat, depth: nat)
    requires Sound(defs) && id in defs && depth > 0 && Answered(defs, id, answers) && k <= |answers|
    ensures || EvalHook(defs, id, answers[..k], depth) == EvalHook(defs, id, answers, depth)
            || EvalHook(defs, id, answers[..k], depth).Deep?
    decreases |answers| - k
  {
    if k == |answers| {
      assert answers[..k] == answers;
    } else {
      var q := defs[id].hook(answers[..k]).id;
      assert answers[..k + 1] == answers[..k] + [answers[k]];
      Resumes(defs, id, answers, k + 1, depth);
      match Eval(defs, q, depth - 1) {
        case Deep =>
        case Models(models) =>
          assert HasValue(defs, q, models);
          ValueUnique(defs, q, models, answers[k]);
        case Wrong(failure) =>
          var d: nat :| Eval(defs, q, d) == Models(answers[k]);
          if d <= depth - 1 {
            EvalDeeper(defs, q, d, depth - 1);
          } else {
            EvalDeeper(defs, q, depth - 1, d);
          }
      }
    }
  }

  /** A provider that needs an undecided one is itself undecided. */
  lemma AsksDeep(defs: Definitions, id: Id, q: Id, depth: nat)
    requires Sound(defs) && Asks(defs, id, q) && Eval(defs, q, depth).Deep?
    ensures Eval(defs, id, depth + 1).Deep?
  {
    var answers :| Answered(defs, id, answers) && defs[id].hook(answers) == Ask(q);
    HookDeep(defs, id, answers, q, depth);
    assert Eval(defs, id, depth + 1) == EvalHook(defs, id, [], depth + 1);
    hide EvalHook, Eval, Answered;
    assert answers[..0] == [];
    Resumes(defs, id, answers, 0, depth + 1);
  }

  lemma HookDeep(defs: Definitions, id: Id, answers: seq<Models>, q: Id, depth: nat)
    requires Sound(defs) && id in defs && defs[id].hook(answers) == Ask(q) && Eval(defs, q, depth).Deep?
    ensures EvalHook(defs, id, answers, depth + 1).Deep?
  {
    hide Eval;
  }

  /** Each provider on the path needs the next. */
  ghost predicate IsPath(defs: Definitions, path: seq<Id>)
    requires Sound(defs)
  {
    forall i | 0 <= i < |path| - 1 :: Asks(defs, path[i], path[i + 1])
  }

  /** The path leads back into itself. */
  ghost predicate IsCycle(defs: Definitions, path: seq<Id>)
    requires Sound(defs)
  {
    |path| > 1 && IsPath(defs, path) && path[|path| - 1] in path[..|path| - 1]
  }

  /** Nothing on a path into a cycle is ever decided. */
  lemma {:induction false} CycleDeep(defs: Definitions, path: seq<Id>, i: nat, depth: nat)
    requires Sound(defs) && IsCycle(defs, path) && i < |path|
    ensures Eval(defs, path[i], depth).Deep?
    decreases depth
  {
    hide EvalHook, Asks;
    var at := i;
    if i == |path| - 1 {
      at :| 0 <= at < |path| - 1 && path[at] == path[i];
    }
    NeedsDepth(defs, path[at], path[at + 1]);
    if depth > 0 {
      CycleDeep(defs, path, at + 1, depth - 1);
      AsksDeep(defs, path[at], path[at + 1], depth - 1);
    }
  }

  lemma NeedsDepth(defs: Definitions, id: Id, q: Id)
    requires Sound(defs) && Asks(defs, id, q)
    ensures Eval(defs, id, 0).Deep?
  {
  }

  /** A depth at which all answers are known. */
  lemma {:induction false} DepthFor(defs: Definitions, id: Id, answers: seq<Models>, n: nat) returns (depth: nat)
    requires Sound(defs) && id in defs && Answered(defs, id, answers) && n <= |answers|
    ensures forall k | 0 <= k < n :: Eval(defs, defs[id].hook(answers[..k]).id, depth) == Models(answers[k])
    decreases n
  {
    depth := 0;
    if n > 0 {
      var before := DepthFor(defs, id, answers, n - 1);
      var q := defs[id].hook(answers[..n - 1]).id;
      var last: nat :| Eval(defs, q, last) == Models(answers[n - 1]);
      depth := if before < last then last else before;
      EvalDeeper(defs, q, last, depth);
      forall k | 0 <= k < n - 1 ensures Eval(defs, defs[id].hook(answers[..k]).id, depth) == Models(answers[k]) {
        EvalDeeper(defs, defs[id].hook(answers[..k]).id, before, depth);
      }
    }
  }

  lemma {:induction false} ResumesAt(defs: Definitions, id: Id, answers: seq<Models>, k: nat, depth: nat)
    requires Sound(defs) && id in defs && Answered(defs, id, answers) && k <= |answers|
    requires forall j | 0 <= j < |answers| :: Eval(defs, defs[id].hook(answers[..j]).id, depth) == Models(answers[j])
    ensures EvalHook(defs, id, answers[..k], depth + 1) == EvalHook(defs, id, answers, depth + 1)
    decreases |answers| - k
  {
    if k == |answers| {
      assert answers[..k] == answers;
    } else {
      assert answers[..k + 1] == answers[..k] + [answers[k]];
      ResumesAt(defs, id, answers, k + 1, depth);
    }
  }

  /** With enough depth, evaluation gets as far as the answers do. */
  lemma Reaches(defs: Definitions, id: Id, answers: seq<Models>, least: nat) returns (depth: nat)
    requires Sound(defs) && id in defs && Answered(defs, id, answers)
    ensures depth > least && Eval(defs, id, depth) == EvalHook(defs, id, answers, depth)
  {
    var known := DepthFor(defs, id, answers, |answers|);
    var enough := if known < least then least else known;
    forall k | 0 <= k < |answers| ensures Eval(defs, defs[id].hook(answers[..k]).id, enough) == Models(answers[k]) {
      EvalDeeper(defs, defs[id].hook(answers[..k]).id, known, enough);
    }
    ResumesAt(defs, id, answers, 0, enough);
    assert answers[..0] == [];
    depth := enough + 1;
  }

  /** What the hook returns is the provider's value, if it is all its own. */
  lemma ReturnIsValue(defs: Definitions, id: Id, answers: seq<Models>, models: Models)
    requires Sound(defs) && id in defs && Answered(defs, id, answers) && defs[id].hook(answers) == Return(models)
    ensures if Owns(id, models) then HasValue(defs, id, models) else HasFailure(defs, id, Foreign(id))
  {
    var depth := Reaches(defs, id, answers, 0);
  }

  lemma ThrowIsFailure(defs: Definitions, id: Id, answers: seq<Models>)
    requires Sound(defs) && id in defs && Answered(defs, id, answers) && defs[id].hook(answers) == Throw
    ensures HasFailure(defs, id, Thrown(id))
  {
    var depth := Reaches(defs, id, answers, 0);
  }

  /** The failure of a provider asked for is that of the one asking. */
  lemma AskFails(defs: Definitions, id: Id, answers: seq<Models>, q: Id, failure: Failure)
    requires Sound(defs) && id in defs && Answered(defs, id, answers) && defs[id].hook(answers) == Ask(q)
    requires HasFailure(defs, q, failure)
    ensures HasFailure(defs, id, failure)
  {
    var d: nat :| Eval(defs, q, d) == Wrong(failure);
    var depth := Reaches(defs, id, answers, d);
    EvalDeeper(defs, q, d, depth - 1);
  }

  lemma AnswersMore(defs: Definitions, id: Id, answers: seq<Models>, q: Id, models: Models)
    requires Sound(defs) && id in defs && Answered(defs, id, answers) && defs[id].hook(answers) == Ask(q)
    requires HasValue(defs, q, models)
    ensures Answered(defs, id, answers + [models])
  {
    var more := answers + [models];
    forall k | 0 <= k < |more|
      ensures defs[id].hook(more[..k]).Ask? && HasValue(defs, defs[id].hook(more[..k]).id, more[k])
    {
      assert more[..k] == if k < |answers| then answers[..k] else answers;
    }
  }

  // ---------------------------------------------------------------- the memoised build

  class CatalogBuilder {
    const defs: Definitions
    /** The models built so far. */
    var stageOne: map<Id, Models>
    /** The providers being built, outermost first in `path` below. */
    var building: set<Id>
    /** How often each provider's hook was called. */
    ghost var calls: map<Id, nat>

    ghost function Calls(id: Id): nat
      reads this
    {
      if id in calls then calls[id] else 0
    }

    ghost predicate Valid()
      reads this
    {
      && Sound(defs) && building <= defs.Keys && stageOne.Keys <= defs.Keys && building !! stageOne.Keys
      && (forall id | id in stageOne :: HasValue(defs, id, stageOne[id]))
      && Once()
      && (forall id | id in calls && calls[id] > 0 :: id in stageOne || id in building)
      && (forall id | id in stageOne :: Calls(id) == 1)
    }

    /** No hook is called twice. */
    ghost predicate Once()
      reads this
    {
      forall id | id in calls :: calls[id] <= 1
    }

    constructor (defs: Definitions)
      requires Sound(defs)
      ensures Valid() && this.defs == defs && stageOne == map[] && building == {} && calls == map[]
    {
      this.defs, stageOne, building, calls := defs, map[], {}, map[];
    }

    /** The providers on `path` are being built, each for the next one. */
    ghost predicate OnStack(path: seq<Id>)
      reads this
    {
      Sound(defs) && building == (set id | id in path) && IsPath(defs, path)
    }

    /** What a failed build means for the provider `id` at the end of `path`. */
    ghost predicate Explains(r: Built, id: Id, path: seq<Id>, cycle: seq<Id>)
      requires Sound(defs)
    {
      match r
      case Built(models) => HasValue(defs, id, models)
      case Failed(Cyclic(_)) => IsCycle(defs, cycle) && path + [id] <= cycle
      case Failed(failure) => HasFailure(defs, id, failure)
    }

    /** The models of `id`, built at most once; `path` are the providers that wait for them. */
    method BuildModels(id: Id, ghost path: seq<Id>) returns (r: Built, ghost cycle: seq<Id>)
      requires Valid() && OnStack(path) && IsPath(defs, path + [id])
      modifies this
      ensures Once() && Explains(r, id, path, cycle)
      ensures r.Built? ==> Valid() && building == old(building) && id in stageOne && stageOne[id] == r.models
      ensures r.Built? ==> forall p | p in old(stageOne) :: p in stageOne && stageOne[p] == old(stageOne)[p]
      ensures forall p | p in old(calls) :: p in calls && old(calls)[p] <= calls[p]
      decreases defs.Keys - building, 1, 0
    {
      hide Eval, EvalHook, HasValue, HasFailure, Asks, IsPath, IsCycle;
      cycle := [];
      if id in stageOne {
        return Built(stageOne[id]), cycle;
      }
      if id !in defs {
        UnknownFails(defs, id);
        return Failed(Unknown(id)), cycle;
      }
      if id in building {
        cycle := path + [id];
        BackOnPath(defs, path, id);
        return Failed(Cyclic(id)), cycle;
      }
      r, cycle := BuildNew(id, path);
    }

    /** The models of a provider that is neither built nor being built. */
    method BuildNew(id: Id, ghost path: seq<Id>) returns (r: Built, ghost cycle: seq<Id>)
      requires Valid() && OnStack(path) && IsPath(defs, path + [id])
      requires id in defs && id !in stageOne && id !in building
      modifies this
      ensures Once() && Explains(r, id, path, cycle)
      ensures r.Built? ==> Valid() && building == old(building) && id in stageOne && stageOne[id] == r.models
      ensures r.Built? ==> forall p | p in old(stageOne) :: p in stageOne && stageOne[p] == old(stageOne)[p]
      ensures forall p | p in old(calls) :: p in calls && old(calls)[p] <= calls[p]
      decreases defs.Keys - building, 0
    {
      hide Eval, EvalHook, HasValue, HasFailure, Asks, IsPath, IsCycle, Owns, Finite;
      building := building + {id};
      r, cycle := CallHook(id, path);
      if r.Failed? {
        return;
      }
      building := building - {id};
      var own := OwnsAll(id, r.models);
      if !own {
        return Failed(Foreign(id)), cycle;
      }
      stageOne := stageOne[id := r.models];
    }

    /** Run the hook of `id`, building what it asks for. */
    method CallHook(id: Id, ghost path: seq<Id>) returns (r: Built, ghost cycle: seq<Id>)
      requires Valid() && OnStack(path + [id]) && id in defs && Calls(id) == 0
      modifies this
      ensures Once() && Calls(id) == 1
      ensures match r
              case Built(models) =>
                if Owns(id, models) then HasValue(defs, id, models) else HasFailure(defs, id, Foreign(id))
              case _ => Explains(r, id, path, cycle)
      ensures r.Built? ==> Valid() && building == old(building)
      ensures r.Built? ==> forall p | p in old(stageOne) :: p in stageOne && stageOne[p] == old(stageOne)[p]
      ensures forall p | p in old(calls) :: p in calls && old(calls)[p] <= calls[p]
      decreases defs.Keys - building, 2, 0
    {
      hide Eval, EvalHook, HasValue, HasFailure, Asks, Answered;
      calls := calls[id := Calls(id) + 1];
      cycle := [];
      var answers: seq<Models> := [];
      NoAnswers(defs, id);
      while true
        invariant Valid() && building == old(building) && Answered(defs, id, answers) && Calls(id) == 1
        invariant forall p | p in old(calls) :: p in calls && old(calls)[p] <= calls[p]
        invariant forall p | p in old(stageOne) :: p in stageOne && stageOne[p] == old(stageOne)[p]
        decreases if |answers| <= defs[id].asks then defs[id].asks - |answers| else 0
      {
        match defs[id].hook(answers) {
          case Return(models) =>
            ReturnIsValue(defs, id, answers, models);
            return Built(models), cycle;
          case Throw =>
            ThrowIsFailure(defs, id, answers);
            return Failed(Thrown(id)), cycle;
          case Ask(q) =>
            assert Finite(defs[id]);
            PathAsks(defs, path + [id], answers, q);
            var asked;
            asked, cycle := BuildModels(q, path + [id]);
            match asked {
              case Built(models) =>
                AnswersMore(defs, id, answers, q, models);
                answers := answers + [models];
              case Failed(failure) =>
                if !failure.Cyclic? {
                  AskFails(defs, id, answers, q, failure);
                }
                return asked, cycle;
            }
        }
      }
    }

    lemma Explained(r: Built, id: Id, cycle: seq<Id>)
      requires Sound(defs) && r.Failed? && Explains(r, id, [], cycle)
      ensures !Decided(defs, id)
      ensures if r.failure.Cyclic? then IsCycle(defs, cycle) && cycle[0] == id else HasFailure(defs, id, r.failure)
    {
      hide Decided, HasFailure, IsPath;
      assert [] + [id] == [id];
      NotDecided(defs, id, r, cycle);
    }

    lemma Completed(order: seq<Id>)
      requires Valid() && defs.Keys == (set id | id in order) && forall k | 0 <= k < |order| :: order[k] in stageOne
      ensures IsTable(defs, stageOne) && forall id | id in defs :: Decided(defs, id) && Calls(id) == 1
    {
      hide Decided, HasValue;
      AllBuilt(defs, order, stageOne);
    }

    /** Build every provider, in the order of the definitions. */
    method BuildAll(order: seq<Id>) returns (failure: Option<Failure>, ghost cycle: seq<Id>)
      requires Valid() && building == {} && defs.Keys == set id | id in order
      modifies this
      ensures Once()
      // It fails exactly when some provider has no models.
      ensures failure.None? <==> forall id | id in defs :: Decided(defs, id)
      ensures failure.None? ==> IsTable(defs, stageOne) && forall id | id in defs :: Calls(id) == 1
      ensures failure.Some? && failure.value.Cyclic? ==> IsCycle(defs, cycle) && cycle[0] in defs
      ensures failure.Some? && !failure.value.Cyclic? ==> exists id :: id in defs && HasFailure(defs, id, failure.value)
    {
      hide Eval, EvalHook, HasValue, HasFailure, Asks, IsPath, IsCycle, Decided, IsTable, Finite, Calls, Explains;
      cycle := [];
      for i := 0 to |order|
        invariant Valid() && building == {}
        invariant forall k | 0 <= k < i :: order[k] in stageOne
      {
        ghost var before := stageOne;
        var r;
        NobodyWaits(defs, order[i]);
        r, cycle := BuildModels(order[i], []);
        if r.Failed? {
          Explained(r, order[i], cycle);
          return Some(r.failure), cycle;
        }
        assert forall k | 0 <= k < i :: order[k] in before;
      }
      Completed(order);
      return None, cycle;
    }
  }

  datatype Option<+T> = None | Some(value: T)

  ghost predicate Decided(defs: Definitions, id: Id)
    requires Sound(defs)
  {
    exists models :: HasValue(defs, id, models)
  }

  /** Every provider's models, and nothing else. */
  ghost predicate IsTable(defs: Definitions, table: map<Id, Models>)
    requires Sound(defs)
  {
    table.Keys == defs.Keys && forall id | id in table :: HasValue(defs, id, table[id])
  }

  lemma AllBuilt(defs: Definitions, order: seq<Id>, table: map<Id, Models>)
    requires Sound(defs) && defs.Keys == set id | id in order
    requires table.Keys <= defs.Keys && forall k | 0 <= k < |order| :: order[k] in table
    requires forall id | id in table :: HasValue(defs, id, table[id])
    ensures IsTable(defs, table) && forall id | id in defs :: Decided(defs, id)
  {
    hide HasValue;
    forall id | id in defs ensures id in table && Decided(defs, id) {
      assert id in order;
      assert HasValue(defs, id, table[id]);
    }
  }

  lemma NobodyWaits(defs: Definitions, id: Id)
    requires Sound(defs)
    ensures IsPath(defs, []) && IsPath(defs, [] + [id]) && [] + [id] == [id]
  {
  }

  /** The table does not depend on the order of the definitions. */
  lemma TableUnique(defs: Definitions, a: map<Id, Models>, b: map<Id, Models>)
    requires Sound(defs) && IsTable(defs, a) && IsTable(defs, b)
    ensures a == b
  {
    forall id | id in defs ensures a[id] == b[id] {
      ValueUnique(defs, id, a[id], b[id]);
    }
  }

  /** A provider whose build fails has no models. */
  lemma NotDecided(defs: Definitions, id: Id, r: Built, cycle: seq<Id>)
    requires Sound(defs) && r.Failed?
    requires if r.failure.Cyclic? then IsCycle(defs, cycle) && [id] <= cycle else HasFailure(defs, id, r.failure)
    ensures !Decided(defs, id)
  {
    if models :| HasValue(defs, id, models) {
      var d: nat :| Eval(defs, id, d) == Models(models);
      if r.failure.Cyclic? {
        CycleDeep(defs, cycle, 0, d);
      } else {
        var e: nat :| Eval(defs, id, e) == Wrong(r.failure);
        if d <= e {
          EvalDeeper(defs, id, d, e);
        } else {
          EvalDeeper(defs, id, e, d);
        }
      }
    }
  }

  /** Whether all models are the provider's own. */
  method OwnsAll(id: Id, models: Models) returns (own: bool)
    ensures own <==> Owns(id, models)
  {
    for i := 0 to |models|
      invariant Owns(id, models[..i])
    {
      if models[i].provider != id {
        return false;
      }
    }
    assert models[..|models|] == models;
    return true;
  }

  lemma UnknownFails(defs: Definitions, id: Id)
    requires Sound(defs) && id !in defs
    ensures HasFailure(defs, id, Unknown(id))
  {
    assert Eval(defs, id, 0) == Wrong(Unknown(id));
  }

  lemma BackOnPath(defs: Definitions, path: seq<Id>, id: Id)
    requires Sound(defs) && IsPath(defs, path + [id]) && id in path
    ensures IsCycle(defs, path + [id])
  {
    assert (path + [id])[..|path|] == path;
  }

  lemma NoAnswers(defs: Definitions, id: Id)
    requires Sound(defs) && id in defs
    ensures Answered(defs, id, [])
  {
  }

  lemma PathAsks(defs: Definitions, path: seq<Id>, answers: seq<Models>, q: Id)
    requires Sound(defs) && path != [] && IsPath(defs, path) && path[|path| - 1] in defs
    requires Answered(defs, path[|path| - 1], answers) && defs[path[|path| - 1]].hook(answers) == Ask(q)
    ensures IsPath(defs, path + [q])
  {
    assert Asks(defs, path[|path| - 1], q);
  }

  // ---------------------------------------------------------------- duplicates

  /** The models whose id no earlier model has. */
  function FirstWins(models: Models): Models {
    if models == [] then [] else
      var n := |models| - 1;
      FirstWins(models[..n]) + if models[n].id in Names(models[..n]) then [] else [models[n]]
  }

  function Names(models: Models): set<Id> {
    set m | m in models :: m.id
  }

  /** Keep the first of the models with one id. */
  method Deduplicate(models: Models) returns (chat: Models)
    ensures chat == FirstWins(models)
  {
    chat := [];
    var seen: set<Id> := {};
    for i := 0 to |models|
      invariant chat == FirstWins(models[..i]) && seen == Names(models[..i])
    {
      var model := models[i];
      assert models[..i + 1][..i] == models[..i] && models[..i + 1] == models[..i] + [model];
      assert Names(models[..i + 1]) == Names(models[..i]) + {model.id};
      if model.id in seen {
        continue;
      }
      seen := seen + {model.id};
      chat := chat + [model];
    }
    assert models[..|models|] == models;
  }

  /** Every id is kept, once. */
  lemma {:induction false} FirstWinsKeeps(models: Models)
    ensures Names(FirstWins(models)) == Names(models)
    ensures forall i, j | 0 <= i < j < |FirstWins(models)| :: FirstWins(models)[i].id != FirstWins(models)[j].id
  {
    if models != [] {
      var n := |models| - 1;
      var kept := FirstWins(models[..n]);
      FirstWinsKeeps(models[..n]);
      assert models == models[..n] + [models[n]];
      NamesMore(models[..n], models[n]);
      NamesMore(kept, models[n]);
      assert forall i | 0 <= i < |kept| :: kept[i] in kept && kept[i].id in Names(kept);
    }
  }

  lemma NamesMore(models: Models, model: Model)
    ensures Names(models + [model]) == Names(models) + {model.id}
  {
  }

  /** What is kept of an id is the first model that has it. */
  lemma {:induction false} FirstWinsIsFirst(models: Models, m: Model) returns (k: nat)
    requires m in FirstWins(models)
    ensures k < |models| && models[k] == m && m.id !in Names(models[..k])
  {
    var n := |models| - 1;
    if m in FirstWins(models[..n]) {
      k := FirstWinsIsFirst(models[..n], m);
      assert models[..n][..k] == models[..k];
    } else {
      k := n;
    }
  }

  /** They keep their order: what is kept of a list is the start of what is kept of a longer one. */
  lemma {:induction false} FirstWinsGrows(models: Models, more: Models)
    ensures FirstWins(models) <= FirstWins(models + more)
  {
    if more == [] {
      assert models + more == models;
    } else {
      var n := |more| - 1;
      FirstWinsGrows(models, more[..n]);
      assert (models + more)[..|models| + n] == models + more[..n];
    }
  }
}
