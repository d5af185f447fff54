/**
 * The catalog refresh protocol of `ModelsImpl`: generations, abort controllers and the publication chain of each
 * provider.
 *
 * Each method is one atomic step: what a caller runs synchronously, or what runs between two awaits of a refresh or a
 * publication. Steps of all refreshes, publications and owners interleave in any order their preconditions allow.
 */
module ModelRefresh {

  type Id = string
  type Models = seq<string>

  datatype Option<+T> = None | Some(value: T)

  /** What a publication does to the provider's store entry. */
  datatype Persist = Keep | Delete | Save(models: Models)

  /** One refresh of a provider, with its abort controller and its caller's signal. */
  datatype Refresh = Refresh(provider: Id, generation: nat, controllerAborted: bool, callerAborted: bool,
                             finished: bool)
  {
    predicate SignalAborted() {
      controllerAborted || callerAborted
    }
  }

  datatype Progress =
    | Waiting                     // for the publication before it
    | Storing                     // its store operation is in flight
    | Stored                      // that took effect but has not returned
    | Settled(published: bool)

  /** `update` is what the publication puts in memory, if anything; `refresh` owns its signal. */
  datatype Publication = Publication(provider: Id, generation: nat, refresh: nat, previous: Option<nat>,
                                     persist: Persist, update: Option<Models>, progress: Progress)

  function Current(generations: map<Id, nat>, id: Id): nat {
    if id in generations then generations[id] else 0
  }

  /** The controllers kept are those of the unaborted refreshes that run, at most one a provider. */
  ghost predicate Controlled(generations: map<Id, nat>, controllers: map<Id, nat>, refreshes: seq<Refresh>) {
    && (forall r | 0 <= r < |refreshes| :: 0 < refreshes[r].generation <= Current(generations, refreshes[r].provider))
    && (forall id | id in controllers :: controllers[id] < |refreshes| && refreshes[controllers[id]].provider == id)
    && (forall r | 0 <= r < |refreshes| && !refreshes[r].finished && !refreshes[r].controllerAborted ::
          && refreshes[r].provider in controllers && controllers[refreshes[r].provider] == r
          && refreshes[r].generation == Current(generations, refreshes[r].provider))
  }

  /** Nothing of `id` before `k` is unsettled. */
  ghost predicate ClearBefore(publications: seq<Publication>, id: Id, k: int) {
    forall j | 0 <= j < k && j < |publications| && publications[j].provider == id :: publications[j].progress.Settled?
  }

  /** A publication acts only after all earlier ones of its provider settled. */
  ghost predicate Serialized(publications: seq<Publication>, chains: map<Id, nat>) {
    && (forall k | 0 <= k < |publications| && !publications[k].progress.Waiting? ::
          ClearBefore(publications, publications[k].provider, k))
    // Its predecessor is the last one that may be unsettled.
    && (forall k | 0 <= k < |publications| && publications[k].previous.Some? ::
          var p := publications[k].previous.value;
          && p < k && publications[p].provider == publications[k].provider
          && Quiet(publications, publications[k].provider, p, k))
    && (forall k | 0 <= k < |publications| && publications[k].previous.None? ::
          ClearBefore(publications, publications[k].provider, k))
    && (forall id | id in chains ::
          && chains[id] < |publications| && publications[chains[id]].provider == id
          && Quiet(publications, id, chains[id], |publications|))
    && (forall k | 0 <= k < |publications| && publications[k].provider !in chains :: publications[k].progress.Settled?)
  }

  /** Strictly between `p` and `k` there is no publication of `id`. */
  ghost predicate Quiet(publications: seq<Publication>, id: Id, p: int, k: int) {
    forall j | p < j < k && 0 <= j < |publications| :: publications[j].provider != id
  }

  /** The store's entry holds what was saved. */
  predicate Holds(store: map<Id, Models>, id: Id, persist: Persist) {
    match persist
    case Keep => true
    case Delete => id !in store
    case Save(models) => id in store && store[id] == models
  }

  /** No entry is of a later generation than a publication that is about to change it. */
  ghost predicate InOrder(publications: seq<Publication>, generations: map<Id, nat>, store: map<Id, Models>,
                          written: map<Id, nat>) {
    && (forall id | id in written :: written[id] <= Current(generations, id))
    && (forall k | 0 <= k < |publications| && publications[k].progress.Storing? ::
          && !publications[k].persist.Keep?
          && (publications[k].provider in written ==> written[publications[k].provider] <= publications[k].generation))
    && (forall k | 0 <= k < |publications| && publications[k].progress.Stored? ::
          && publications[k].provider in written && written[publications[k].provider] == publications[k].generation
          && Holds(store, publications[k].provider, publications[k].persist))
    && (forall k | 0 <= k < |publications| ::
             publications[k].generation <= Current(generations, publications[k].provider))
  }

  ghost predicate Linked(publications: seq<Publication>, refreshes: seq<Refresh>) {
    forall k | 0 <= k < |publications| :: publications[k].refresh < |refreshes|
  }

  class ModelsImpl {
    var providers: set<Id>
    var generations: map<Id, nat>
    /** The refresh whose controller is kept. */
    var controllers: map<Id, nat>
    /** The last publication, while its chain entry is kept. */
    var chains: map<Id, nat>

    var refreshes: seq<Refresh>
    var publications: seq<Publication>
    /** The models store, and what each provider holds in memory. */
    var store: map<Id, Models>
    var memory: map<Id, Models>

    /** The generation that last changed the store entry, and the models in memory. */
    ghost var written: map<Id, nat>
    ghost var updated: map<Id, nat>

    ghost predicate Valid()
      reads this
    {
      && Controlled(generations, controllers, refreshes)
      && Serialized(publications, chains)
      && InOrder(publications, generations, store, written)
      && (forall id | id in updated :: updated[id] <= Current(generations, id))
      && Linked(publications, refreshes)
    }

    /** What every step keeps: generations, and the generations of store entries and memory, never go back. */
    twostate predicate Onward()
      reads this
    {
      && (forall id: Id :: Current(old(generations), id) <= Current(generations, id))
      && (forall id | id in old(written) :: id in written && old(written)[id] <= written[id])
      && (forall id | id in old(updated) :: id in updated && old(updated)[id] <= updated[id])
    }

    constructor ()
      ensures Valid() && refreshes == [] && publications == [] && providers == {} && generations == map[]
      ensures controllers == map[] && chains == map[] && store == map[] && memory == map[]
    {
      providers, generations, controllers, chains := {}, map[], map[], map[];
      refreshes, publications, store, memory := [], [], map[], map[];
      written, updated := map[], map[];
    }

    /** A new generation: the running refresh of the provider is aborted. */
    method Supersede(id: Id) returns (generation: nat)
      requires Valid()
      modifies this`generations, this`controllers, this`refreshes
      ensures Valid() && Onward()
      ensures generation == Current(old(generations), id) + 1 && generations == old(generations)[id := generation]
      ensures controllers == old(controllers) - {id}
      ensures refreshes == Abort(old(refreshes), old(controllers), id) && Aborted(old(refreshes), refreshes, id)
    {
      hide Controlled, Serialized, InOrder, Aborted;
      generation := (if id in generations then generations[id] else 0) + 1;
      NextGeneration(generations, controllers, refreshes, publications, store, written, id);
      generations := generations[id := generation];
      if id in controllers {
        var r := controllers[id];
        controllers := controllers - {id};
        refreshes := refreshes[r := refreshes[r].(controllerAborted := true)];
      } else {
        assert controllers - {id} == controllers;
      }
    }

    method SetProvider(id: Id)
      requires Valid()
      modifies this`generations, this`controllers, this`refreshes, this`providers
      ensures Valid() && Onward() && providers == old(providers) + {id} && controllers == old(controllers) - {id}
      ensures generations == old(generations)[id := Current(old(generations), id) + 1]
              && Aborted(old(refreshes), refreshes, id)
    {
      var ignored := Supersede(id);
      providers := providers + {id};
    }

    method DeleteProvider(id: Id)
      requires Valid()
      modifies this`generations, this`controllers, this`refreshes, this`providers
      ensures Valid() && Onward() && providers == old(providers) - {id} && controllers == old(controllers) - {id}
      ensures generations == old(generations)[id := Current(old(generations), id) + 1]
              && Aborted(old(refreshes), refreshes, id)
    {
      var ignored := Supersede(id);
      providers := providers - {id};
    }

    /** Start a refresh of `id`. */
    method BeginRefresh(id: Id, callerAborted: bool) returns (r: nat)
      requires Valid()
      modifies this`generations, this`controllers, this`refreshes
      ensures Valid() && Onward()
      ensures r == |old(refreshes)| && |refreshes| == r + 1
      ensures refreshes[r] == Refresh(id, Current(old(generations), id) + 1, false, callerAborted, false)
      ensures refreshes[..r] == Abort(old(refreshes), old(controllers), id)
      ensures generations == old(generations)[id := refreshes[r].generation] && controllers == old(controllers)[id := r]
      // It is the only unaborted one of its provider that runs.
      ensures forall q | 0 <= q < r && refreshes[q].provider == id ::
                refreshes[q].finished || refreshes[q].controllerAborted
    {
      hide Serialized, InOrder, Controlled;
      var generation := Supersede(id);
      Begins(generations, controllers, refreshes, id, callerAborted);
      r := |refreshes|;
      refreshes := refreshes + [Refresh(id, generation, false, callerAborted, false)];
      controllers := controllers[id := r];
    }

    /** The caller's signal aborts. */
    method AbortCaller(r: nat)
      requires Valid() && r < |refreshes|
      modifies this`refreshes
      ensures Valid() && Onward() && refreshes == old(refreshes)[r := old(refreshes)[r].(callerAborted := true)]
    {
      refreshes := refreshes[r := refreshes[r].(callerAborted := true)];
    }

    /** The refresh settles; its controller is let go unless another one took its place. */
    method FinishRefresh(r: nat)
      requires Valid() && r < |refreshes|
      modifies this`refreshes, this`controllers
      ensures Valid() && Onward() && refreshes == old(refreshes)[r := old(refreshes)[r].(finished := true)]
      ensures var id := refreshes[r].provider;
              controllers == if id in old(controllers) && old(controllers)[id] == r then old(controllers) - {id}
                             else old(controllers)
    {
      hide Serialized, InOrder, Controlled;
      Finishes(generations, controllers, refreshes, r);
      var id := refreshes[r].provider;
      refreshes := refreshes[r := refreshes[r].(finished := true)];
      if id in controllers && controllers[id] == r {
        controllers := controllers - {id};
      }
    }

    /** `publishProviderModels` up to its wait for the publication before. */
    method Publish(r: nat, persist: Persist, update: Option<Models>) returns (k: nat)
      requires Valid() && r < |refreshes|
      modifies this`publications, this`chains
      ensures Valid() && Onward()
      ensures k == |old(publications)| && old(publications) < publications && |publications| == k + 1
      // It waits for the publication the chain ends with, and the next one waits for it.
      ensures var id := refreshes[r].provider;
              var previous := if id in old(chains) then Some(old(chains)[id]) else None;
              && publications[k] == Publication(id, refreshes[r].generation, r, previous, persist, update, Waiting)
              && chains == old(chains)[id := k]
    {
      hide Controlled, Serialized, InOrder;
      var id := refreshes[r].provider;
      k := |publications|;
      var previous := if id in chains then Some(chains[id]) else None;
      var p := Publication(id, refreshes[r].generation, r, previous, persist, update, Waiting);
      GenerationKnown(generations, controllers, refreshes, r);
      Joins(publications, chains, p);
      JoinsInOrder(publications, generations, store, written, p);
      publications := publications + [p];
      chains := chains[id := k];
    }

    /** Whether the publication's signal is live and its generation current. */
    predicate Live(k: nat): (live: bool)
      requires k < |publications| && publications[k].refresh < |refreshes|
      reads this
      ensures live <==> StillLive(k)
    {
      var p := publications[k];
      !refreshes[p.refresh].SignalAborted() && p.provider in generations && generations[p.provider] == p.generation
    }

    /** Neither its caller nor a newer refresh aborted its refresh, and no generation came after its own. */
    ghost predicate StillLive(k: nat)
      requires k < |publications| && publications[k].refresh < |refreshes|
      reads this
    {
      var p := publications[k];
      && !refreshes[p.refresh].controllerAborted && !refreshes[p.refresh].callerAborted
      && p.provider in generations && generations[p.provider] == p.generation
    }

    /** The publication before settled: store what is to be kept, while this one is live. */
    method Resume(k: nat)
      requires Valid() && k < |publications| && publications[k].progress.Waiting?
      requires match publications[k].previous case None => true
               case Some(p) => p < |publications| && publications[p].progress.Settled?
      modifies this`publications, this`memory, this`updated
      ensures Valid() && Onward()
      ensures publications == old(publications)[k := publications[k]] && Moved(old(publications)[k], publications[k])
      // A live publication goes on to its store operation, with nothing else of the provider in flight, or has none.
      ensures publications[k].progress ==
              if !old(StillLive(k)) then Settled(false)
              else if publications[k].persist.Keep? then Settled(true) else Storing
      ensures publications[k].progress.Storing? ==> Alone(k) && memory == old(memory) && updated == old(updated)
      ensures publications[k].progress.Settled? ==> Updates(k)
    {
      hide Controlled, Serialized, InOrder;
      SettledBefore(publications, chains, k);
      if !Live(k) {
        Settle(k, false);
      } else if publications[k].persist.Keep? {
        Update(k);
      } else {
        MoveSerialized(publications, chains, k, Storing);
        Starts(publications, generations, store, written, k);
        publications := publications[k := publications[k].(progress := Storing)];
        OthersRest(publications, chains, k);
      }
    }

    /** The store operation takes effect. */
    method StoreTakesEffect(k: nat)
      requires Valid() && k < |publications| && publications[k].progress.Storing?
      modifies this`publications, this`store, this`written
      ensures Valid() && Onward()
      ensures publications == old(publications)[k := publications[k]] && Moved(old(publications)[k], publications[k])
      ensures publications[k].progress.Stored?
      ensures Holds(store, publications[k].provider, publications[k].persist)
      ensures store - {publications[k].provider} == old(store) - {publications[k].provider}
      // The entry of a newer generation is never replaced.
      ensures publications[k].provider in old(written) ==>
                old(written)[publications[k].provider] <= publications[k].generation
      ensures written == old(written)[publications[k].provider := publications[k].generation]
    {
      hide Controlled, Serialized, InOrder;
      var p := publications[k];
      SettledBefore(publications, chains, k);
      OthersRest(publications, chains, k);
      MoveSerialized(publications, chains, k, Stored);
      Takes(publications, generations, store, written, k);
      match p.persist {
        case Delete => store := store - {p.provider};
        case Save(models) => store := store[p.provider := models];
      }
      written := written[p.provider := p.generation];
      publications := publications[k := p.(progress := Stored)];
    }

    /** The store operation returns: if it succeeded and the publication is still live, memory is updated. */
    method StoreReturns(k: nat, succeeded: bool)
      requires Valid() && k < |publications|
      requires publications[k].progress.Stored? || (publications[k].progress.Storing? && !succeeded)
      modifies this`publications, this`memory, this`updated
      ensures Valid() && Onward()
      ensures publications == old(publications)[k := publications[k]] && Moved(old(publications)[k], publications[k])
      ensures Updates(k) && (publications[k].progress.published <==> succeeded && old(StillLive(k)))
      // Memory is updated only while the store holds what was published with it.
      ensures publications[k].progress.published ==> Holds(store, publications[k].provider, publications[k].persist)
    {
      hide Controlled, Serialized, InOrder;
      SettledBefore(publications, chains, k);
      if publications[k].progress.Stored? {
        Stays(publications, generations, store, written, k);
      }
      if !succeeded || !Live(k) {
        Settle(k, false);
      } else {
        Update(k);
      }
    }

    /** The chain's entry is let go unless another publication follows. */
    method ForgetTail(k: nat)
      requires Valid() && k < |publications| && publications[k].progress.Settled?
      modifies this`chains
      ensures Valid() && Onward()
      ensures var id := publications[k].provider;
              chains == if id in old(chains) && old(chains)[id] == k then old(chains) - {id} else old(chains)
    {
      var id := publications[k].provider;
      if id in chains && chains[id] == k {
        chains := chains - {id};
        forall j | 0 <= j < |publications| && publications[j].provider == id ensures publications[j].progress.Settled? {
          assert j <= k;
        }
      }
    }

    method Settle(k: nat, published: bool)
      requires Valid() && k < |publications| && !publications[k].progress.Settled?
      requires ClearBefore(publications, publications[k].provider, k)
      modifies this`publications
      ensures Valid()
      ensures publications == old(publications)[k := old(publications)[k].(progress := Settled(published))]
    {
      hide Controlled, Serialized, InOrder;
      Settles(publications, generations, store, written, k, published);
      MoveSerialized(publications, chains, k, Settled(published));
      publications := publications[k := publications[k].(progress := Settled(published))];
    }

    method Update(k: nat)
      requires Valid() && k < |publications| && !publications[k].progress.Settled? && Live(k)
      requires ClearBefore(publications, publications[k].provider, k)
      modifies this`publications, this`memory, this`updated
      ensures Valid() && Onward()
      ensures publications == old(publications)[k := old(publications)[k].(progress := Settled(true))]
      ensures Updates(k)
    {
      hide Controlled, Serialized, InOrder;
      var p := publications[k];
      if p.update.Some? {
        memory := memory[p.provider := p.update.value];
        updated := updated[p.provider := p.generation];
      }
      Settle(k, true);
    }

    /** No other publication of the provider is between its start and its end. */
    ghost predicate Alone(k: nat)
      requires k < |publications|
      reads this
    {
      forall j | 0 <= j < |publications| && j != k && publications[j].provider == publications[k].provider ::
        publications[j].progress.Waiting? || publications[j].progress.Settled?
    }

    /** Memory takes the models of publication `k` exactly when it published, which it does only while live. */
    twostate predicate Updates(k: nat)
      requires k < |publications| && k < |old(publications)| && old(publications)[k].refresh < |old(refreshes)|
      reads this
    {
      var p := publications[k];
      && p.progress.Settled?
      && (p.progress.published ==> old(StillLive(k)))
      && (if p.progress.published && p.update.Some? then
            && memory == old(memory)[p.provider := p.update.value]
            && updated == old(updated)[p.provider := p.generation]
          else memory == old(memory) && updated == old(updated))
    }
  }

  // ---------------------------------------------------------------- a publication among the others

  /** Anything else may happen meanwhile: providers and refreshes come and go, other publications take their steps. */
  method Meanwhile(m: ModelsImpl, k: nat)
    requires m.Valid() && k < |m.publications|
    modifies m
    ensures m.Valid() && k < |m.publications| && m.publications[k] == old(m.publications)[k]
  {
    hide Controlled, Serialized, InOrder, Linked, ModelsImpl.Valid;
    var rounds: nat := *;
    while rounds > 0
      invariant m.Valid() && k < |m.publications| && m.publications[k] == old(m.publications)[k]
    {
      OtherStep(m, k);
      rounds := rounds - 1;
    }
  }

  method OtherStep(m: ModelsImpl, k: nat)
    requires m.Valid() && k < |m.publications|
    modifies m
    ensures m.Valid() && k < |m.publications| && m.publications[k] == old(m.publications)[k]
  {
    hide Controlled, Serialized, InOrder, Linked, ModelsImpl.Valid;
    var which: nat, id: Id, j: nat, flag: bool := *, *, *, *;
    if which == 0 {
      m.SetProvider(id);
    } else if which == 1 {
      m.DeleteProvider(id);
    } else if which == 2 {
      var r := m.BeginRefresh(id, flag);
    } else if j < |m.refreshes| {
      RefreshStep(m, j, which);
    } else if j < |m.publications| && j != k {
      PublicationStep(m, j, which, flag);
    }
  }

  method RefreshStep(m: ModelsImpl, r: nat, which: nat)
    requires m.Valid() && r < |m.refreshes|
    modifies m
    ensures m.Valid() && old(m.publications) <= m.publications
  {
    hide Controlled, Serialized, InOrder, Linked, ModelsImpl.Valid;
    if which == 3 {
      m.AbortCaller(r);
    } else if which == 4 {
      m.FinishRefresh(r);
    } else {
      var persist, update := *, *;
      var k := m.Publish(r, persist, update);
    }
  }

  method PublicationStep(m: ModelsImpl, j: nat, which: nat, succeeded: bool)
    requires m.Valid() && j < |m.publications|
    modifies m
    ensures m.Valid() && |m.publications| == |old(m.publications)|
    ensures forall k | 0 <= k < |m.publications| && k != j :: m.publications[k] == old(m.publications)[k]
  {
    hide Controlled, Serialized, InOrder, ModelsImpl.Valid;
    var p := m.publications[j];
    match p.progress {
      case Waiting =>
        if p.previous.None? ||
           (p.previous.value < |m.publications| && m.publications[p.previous.value].progress.Settled?) {
          m.Resume(j);
        }
      case Storing =>
        if which == 3 {
          m.StoreReturns(j, false);
        } else {
          m.StoreTakesEffect(j);
        }
      case Stored => m.StoreReturns(j, succeeded);
      case Settled(_) => m.ForgetTail(j);
    }
  }

  /**
   * A publication whose turn it is, whatever else happens between its steps: if it is live then and again when its
   * store operation returns, what it published is in the store and in memory; otherwise it publishes nothing.
   */
  method PublicationRuns(m: ModelsImpl, k: nat) returns (live: bool)
    requires m.Valid() && k < |m.publications| && m.publications[k].progress.Waiting?
    requires match m.publications[k].previous case None => true
             case Some(p) => p < |m.publications| && m.publications[p].progress.Settled?
    modifies m
    ensures m.Valid() && k < |m.publications| && m.publications[k].progress == Settled(live)
    // It is published exactly if it was live when its turn came and when the store operation returned.
    ensures m.publications[k].refresh < |m.refreshes|
    ensures live <==> old(m.publications[k].refresh < |m.refreshes| && m.StillLive(k)) && m.StillLive(k)
    ensures live ==>
              var p := m.publications[k];
              Holds(m.store, p.provider, p.persist)
              && (p.update.Some? ==> p.provider in m.memory && m.memory[p.provider] == p.update.value)
  {
    hide Controlled, Serialized, InOrder;
    assert m.publications[k].refresh < |m.refreshes|;
    hide ModelsImpl.Valid;
    m.Resume(k);
    if m.publications[k].progress.Settled? {
      return m.publications[k].progress.published;
    }
    Meanwhile(m, k);
    m.StoreTakesEffect(k);
    Meanwhile(m, k);
    KnownRefresh(m, k);
    live := m.Live(k);
    m.StoreReturns(k, true);
  }

  lemma KnownRefresh(m: ModelsImpl, k: nat)
    requires m.Valid() && k < |m.publications|
    ensures m.publications[k].refresh < |m.refreshes|
  {
  }

  /** Only a publication's progress changes. */
  predicate Moved(before: Publication, after: Publication) {
    after == before.(progress := after.progress)
  }

  /** Once the publication before it settled, everything before it did. */
  lemma SettledBefore(publications: seq<Publication>, chains: map<Id, nat>, k: nat)
    requires Serialized(publications, chains) && k < |publications|
    requires !publications[k].progress.Waiting?
             || (match publications[k].previous
                 case None => true
                 case Some(p) => p < |publications| && publications[p].progress.Settled?)
    ensures ClearBefore(publications, publications[k].provider, k)
  {
    match publications[k].previous
    case None =>
    case Some(p) =>
      if publications[k].progress.Waiting? {
        assert ClearBefore(publications, publications[p].provider, p);
        forall j | 0 <= j < k && publications[j].provider == publications[k].provider
          ensures publications[j].progress.Settled?
        {
          assert Quiet(publications, publications[k].provider, p, k);
        }
      }
  }

  /** A publication whose turn it is may move on. */
  lemma MoveSerialized(publications: seq<Publication>, chains: map<Id, nat>, k: nat, progress: Progress)
    requires Serialized(publications, chains) && k < |publications| && !publications[k].progress.Settled?
    requires ClearBefore(publications, publications[k].provider, k)
    ensures Serialized(publications[k := publications[k].(progress := progress)], chains)
  {
    hide ClearBefore, Quiet;
    var after := publications[k := publications[k].(progress := progress)];
    assert forall j | 0 <= j < |after| :: after[j].provider == publications[j].provider
                                          && after[j].previous == publications[j].previous;
    MoveKeeps(publications, k, progress);
  }

  lemma MoveKeeps(publications: seq<Publication>, k: nat, progress: Progress)
    requires k < |publications| && !publications[k].progress.Settled?
    ensures var after := publications[k := publications[k].(progress := progress)];
            && (forall id, i | ClearBefore(publications, id, i) :: ClearBefore(after, id, i))
            && (forall id, p, i | Quiet(publications, id, p, i) :: Quiet(after, id, p, i))
  {
  }

  /** While a publication of a provider is in flight, the others wait or have settled. */
  lemma OthersRest(publications: seq<Publication>, chains: map<Id, nat>, k: nat)
    requires Serialized(publications, chains) && k < |publications|
    requires !publications[k].progress.Settled? && ClearBefore(publications, publications[k].provider, k)
    ensures forall j | 0 <= j < |publications| && j != k && publications[j].provider == publications[k].provider ::
              publications[j].progress.Waiting? || publications[j].progress.Settled?
  {
    forall j | k < j < |publications| && publications[j].provider == publications[k].provider
      ensures publications[j].progress.Waiting?
    {
      assert !ClearBefore(publications, publications[j].provider, j);
    }
  }

  /** Every refresh of the provider that runs is aborted, by its controller, and nothing else is different. */
  ghost predicate Aborted(before: seq<Refresh>, after: seq<Refresh>, id: Id) {
    && |after| == |before|
    && (forall r | 0 <= r < |after| ::
          || after[r] == before[r]
          || (before[r].provider == id && after[r] == before[r].(controllerAborted := true)))
    && (forall r | 0 <= r < |after| && after[r].provider == id && !after[r].finished :: after[r].controllerAborted)
  }

  function Abort(refreshes: seq<Refresh>, controllers: map<Id, nat>, id: Id): seq<Refresh> {
    if id in controllers && controllers[id] < |refreshes| then
      refreshes[controllers[id] := refreshes[controllers[id]].(controllerAborted := true)]
    else refreshes
  }

  /** A new generation of `id` aborts what runs. */
  lemma NextGeneration(generations: map<Id, nat>, controllers: map<Id, nat>, refreshes: seq<Refresh>,
                       publications: seq<Publication>, store: map<Id, Models>, written: map<Id, nat>, id: Id)
    requires Controlled(generations, controllers, refreshes) && Linked(publications, refreshes)
    requires InOrder(publications, generations, store, written)
    ensures id in controllers ==> controllers[id] < |refreshes|
    ensures var next := generations[id := Current(generations, id) + 1];
            var after := Abort(refreshes, controllers, id);
            && Controlled(next, controllers - {id}, after) && Linked(publications, after)
            && InOrder(publications, next, store, written)
            && Aborted(refreshes, after, id)
  {
    var next := generations[id := Current(generations, id) + 1];
    assert forall other :: Current(generations, other) <= Current(next, other);
  }

  /** A refresh of a generation just superseded takes the controller. */
  lemma Begins(generations: map<Id, nat>, controllers: map<Id, nat>, refreshes: seq<Refresh>, id: Id,
               callerAborted: bool)
    requires Controlled(generations, controllers, refreshes) && id !in controllers && Current(generations, id) > 0
    ensures Controlled(generations, controllers[id := |refreshes|],
                       refreshes + [Refresh(id, Current(generations, id), false, callerAborted, false)])
  {
  }

  lemma Finishes(generations: map<Id, nat>, controllers: map<Id, nat>, refreshes: seq<Refresh>, r: nat)
    requires Controlled(generations, controllers, refreshes) && r < |refreshes|
    ensures var after, id := refreshes[r := refreshes[r].(finished := true)], refreshes[r].provider;
            && Controlled(generations, controllers, after)
            && (id in controllers && controllers[id] == r ==> Controlled(generations, controllers - {id}, after))
  {
  }

  lemma ClearMore(publications: seq<Publication>, p: Publication, id: Id, k: nat)
    requires k <= |publications|
    ensures ClearBefore(publications + [p], id, k) <==> ClearBefore(publications, id, k)
  {
    assert forall j | 0 <= j < k :: (publications + [p])[j] == publications[j];
  }

  lemma QuietMore(publications: seq<Publication>, p: Publication, id: Id, from: nat, k: nat)
    requires Quiet(publications, id, from, k)
    ensures k <= |publications| ==> Quiet(publications + [p], id, from, k)
    ensures k == |publications| && (p.provider != id || from == k) ==> Quiet(publications + [p], id, from, k + 1)
  {
    assert forall j | 0 <= j < |publications| :: (publications + [p])[j] == publications[j];
  }

  /** A provider whose chain has ended has nothing unsettled. */
  lemma ClearWithoutChain(publications: seq<Publication>, chains: map<Id, nat>, p: Publication)
    requires Serialized(publications, chains) && p.provider !in chains
    ensures ClearBefore(publications + [p], p.provider, |publications|)
  {
    assert forall j | 0 <= j < |publications| :: (publications + [p])[j] == publications[j];
  }

  /** A publication joins the end of its provider's chain. */
  lemma Joins(publications: seq<Publication>, chains: map<Id, nat>, p: Publication)
    requires Serialized(publications, chains) && p.progress.Waiting?
    requires p.previous == if p.provider in chains then Some(chains[p.provider]) else None
    ensures Serialized(publications + [p], chains[p.provider := |publications|])
  {
    var after, n := publications + [p], |publications|;
    assert forall k | 0 <= k < n :: after[k] == publications[k];
    if p.provider !in chains {
      ClearWithoutChain(publications, chains, p);
    }
    hide ClearBefore, Quiet;
    forall k | 0 <= k < n
      ensures ClearBefore(after, after[k].provider, k) <==> ClearBefore(publications, publications[k].provider, k)
    {
      ClearMore(publications, p, publications[k].provider, k);
    }
    forall k | 0 <= k < n && after[k].previous.Some?
      ensures Quiet(after, after[k].provider, after[k].previous.value, k)
    {
      QuietMore(publications, p, publications[k].provider, publications[k].previous.value, k);
    }
    forall id | id in chains
      ensures Quiet(after, id, chains[id], n) && (id != p.provider ==> Quiet(after, id, chains[id], n + 1))
    {
      QuietMore(publications, p, id, chains[id], n);
    }
    QuietNone(after, p.provider, n);
  }

  lemma QuietNone(publications: seq<Publication>, id: Id, k: nat)
    ensures Quiet(publications, id, k, k + 1)
  {
  }

  lemma JoinsInOrder(publications: seq<Publication>, generations: map<Id, nat>, store: map<Id, Models>,
                     written: map<Id, nat>, p: Publication)
    requires InOrder(publications, generations, store, written) && p.progress.Waiting?
    requires p.generation <= Current(generations, p.provider)
    ensures InOrder(publications + [p], generations, store, written)
  {
  }

  lemma GenerationKnown(generations: map<Id, nat>, controllers: map<Id, nat>, refreshes: seq<Refresh>, r: nat)
    requires Controlled(generations, controllers, refreshes) && r < |refreshes|
    ensures refreshes[r].generation <= Current(generations, refreshes[r].provider)
  {
  }

  lemma Starts(publications: seq<Publication>, generations: map<Id, nat>, store: map<Id, Models>, written: map<Id, nat>,
               k: nat)
    requires InOrder(publications, generations, store, written) && k < |publications| && !publications[k].persist.Keep?
    requires publications[k].generation == Current(generations, publications[k].provider)
    ensures InOrder(publications[k := publications[k].(progress := Storing)], generations, store, written)
  {
  }

  lemma Takes(publications: seq<Publication>, generations: map<Id, nat>, store: map<Id, Models>, written: map<Id, nat>,
              k: nat)
    requires InOrder(publications, generations, store, written) && k < |publications|
             && publications[k].progress.Storing?
    requires forall j | 0 <= j < |publications| && j != k && publications[j].provider == publications[k].provider ::
               publications[j].progress.Waiting? || publications[j].progress.Settled?
    ensures !publications[k].persist.Keep?
    ensures var p := publications[k];
            && (p.provider in written ==> written[p.provider] <= p.generation)
            && InOrder(publications[k := p.(progress := Stored)], generations,
                       if p.persist.Delete? then store - {p.provider} else store[p.provider := p.persist.models],
                       written[p.provider := p.generation])
  {
  }

  lemma Stays(publications: seq<Publication>, generations: map<Id, nat>, store: map<Id, Models>, written: map<Id, nat>,
              k: nat)
    requires InOrder(publications, generations, store, written) && k < |publications|
             && publications[k].progress.Stored?
    ensures Holds(store, publications[k].provider, publications[k].persist)
  {
  }

  lemma Settles(publications: seq<Publication>, generations: map<Id, nat>, store: map<Id, Models>,
                written: map<Id, nat>, k: nat, published: bool)
    requires InOrder(publications, generations, store, written) && k < |publications|
    ensures InOrder(publications[k := publications[k].(progress := Settled(published))], generations, store, written)
  {
  }
}
