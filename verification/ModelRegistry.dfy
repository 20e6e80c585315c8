/**
 * The model registry's two indices (app/core/openai/model_registry.py, `ModelRegistry.update`): which
 * plans offer a model and which models a plan offers, over partial refreshes.
 */
module ModelRegistry {
  import opened Wrappers

  /** `info` stands for everything about a model besides its slug. */
  datatype Model = Model(slug: string, info: string)

  datatype PlanResult = PlanResult(plan: string, models: seq<Model>)

  /** What one refresh fetched, by plan, in order. */
  type Results = seq<PlanResult>

  type Index = map<string, set<string>>

  datatype Snapshot = Snapshot(models: map<string, Model>, modelPlans: Index, planModels: Index, fetchedAt: real)

  predicate Lists(index: Index, key: string, x: string) {
    key in index && x in index[key]
  }

  function At(index: Index, key: string): set<string> {
    if key in index then index[key] else {}
  }

  ghost predicate NoEmpty(index: Index) {
    forall k :: k in index ==> index[k] != {}
  }

  function Add(index: Index, key: string, x: string): Index {
    index[key := At(index, key) + {x}]
  }

  lemma AddLists(index: Index, key: string, x: string)
    ensures forall k, y :: Lists(Add(index, key, x), k, y) <==> Lists(index, k, y) || (k == key && y == x)
    ensures NoEmpty(index) ==> NoEmpty(Add(index, key, x))
    ensures Add(index, key, x).Keys == index.Keys + {key}
  {
  }

  // ---- What an update is to do ----

  predicate DistinctPlans(results: Results) {
    forall i, j :: 0 <= i < j < |results| ==> results[i].plan != results[j].plan
  }

  predicate Includes(results: Results, plan: string) {
    exists i :: 0 <= i < |results| && results[i].plan == plan
  }

  predicate Offers(r: PlanResult, slug: string) {
    exists k :: 0 <= k < |r.models| && r.models[k].slug == slug
  }

  /** The refresh lists `slug` under `plan`. */
  predicate Fetched(results: Results, plan: string, slug: string) {
    exists i :: 0 <= i < |results| && results[i].plan == plan && Offers(results[i], slug)
  }

  function LastIn(models: seq<Model>, slug: string): Option<Model> {
    if models == [] then None
    else if models[|models| - 1].slug == slug then Some(models[|models| - 1])
    else LastIn(models[..|models| - 1], slug)
  }

  /** The model last given for a slug in one refresh. */
  function LastFetched(results: Results, slug: string): Option<Model> {
    if results == [] then None
    else if LastIn(results[|results| - 1].models, slug).Some? then LastIn(results[|results| - 1].models, slug)
    else LastFetched(results[..|results| - 1], slug)
  }

  /** The indices are inverses of each other without empty entries, and cover the models. */
  ghost predicate Coherent(s: Snapshot) {
    && (forall slug, plan :: Lists(s.modelPlans, slug, plan) <==> Lists(s.planModels, plan, slug))
    && NoEmpty(s.modelPlans) && NoEmpty(s.planModels)
    && s.models.Keys == s.modelPlans.Keys
  }

  ghost predicate CoherentOpt(s: Option<Snapshot>) {
    s.Some? ==> Coherent(s.value)
  }

  predicate ListedBefore(s: Option<Snapshot>, plan: string, slug: string) {
    s.Some? && Lists(s.value.planModels, plan, slug)
  }

  function ModelBefore(s: Option<Snapshot>, slug: string): Option<Model> {
    if s.Some? && slug in s.value.models then Some(s.value.models[slug]) else None
  }

  /** `after` follows from `before` by a refresh with `results`. */
  ghost predicate Updated(before: Option<Snapshot>, results: Results, after: Option<Snapshot>) {
    if results == [] then after == before
    else
      && after.Some? && Coherent(after.value)
      && (forall plan, slug :: Lists(after.value.planModels, plan, slug) <==>
            if Includes(results, plan) then Fetched(results, plan, slug) else ListedBefore(before, plan, slug))
      && (forall slug :: slug in after.value.models ==>
            Some(after.value.models[slug]) ==
            if LastFetched(results, slug).Some? then LastFetched(results, slug) else ModelBefore(before, slug))
  }

  // ---- The loops of update ----

  ghost predicate CarriedFrom(models: map<string, Model>, previous: Snapshot) {
    forall slug :: slug in models ==> slug in previous.models && models[slug] == previous.models[slug]
  }

  /** Carry over what plans not refreshed had. */
  method CarryOver(previous: Snapshot, stale: set<string>) returns (models: map<string, Model>, modelPlans: Index)
    requires Coherent(previous)
    ensures forall slug, plan :: Lists(modelPlans, slug, plan) <==> plan in stale && Lists(previous.planModels, plan, slug)
    ensures NoEmpty(modelPlans)
    ensures models.Keys == modelPlans.Keys
    ensures CarriedFrom(models, previous)
  {
    models, modelPlans := map[], map[];
    var todo := stale;
    while todo != {}
      invariant todo <= stale
      invariant forall slug, plan :: Lists(modelPlans, slug, plan) <==>
                  plan in stale && plan !in todo && Lists(previous.planModels, plan, slug)
      invariant NoEmpty(modelPlans)
      invariant models.Keys == modelPlans.Keys
      invariant CarriedFrom(models, previous)
      decreases |todo|
    {
      var plan :| plan in todo;
      PlanModelsKnown(previous, plan);
      models, modelPlans := CarryPlan(previous, plan, models, modelPlans);
      todo := todo - {plan};
    }
  }

  method CarryPlan(previous: Snapshot, plan: string, models0: map<string, Model>, modelPlans0: Index)
    returns (models: map<string, Model>, modelPlans: Index)
    requires At(previous.planModels, plan) <= previous.models.Keys && models0.Keys == modelPlans0.Keys
    requires NoEmpty(modelPlans0)
    requires CarriedFrom(models0, previous)
    ensures forall slug, p :: Lists(modelPlans, slug, p) <==>
              Lists(modelPlans0, slug, p) || (p == plan && slug in At(previous.planModels, plan))
    ensures NoEmpty(modelPlans)
    ensures models.Keys == modelPlans.Keys
    ensures CarriedFrom(models, previous)
  {
    models, modelPlans := models0, modelPlans0;
    var slugs := At(previous.planModels, plan);
    var todo := slugs;
    while todo != {}
      invariant todo <= slugs
      invariant forall slug, p :: Lists(modelPlans, slug, p) <==>
                  Lists(modelPlans0, slug, p) || (p == plan && slug in slugs && slug !in todo)
      invariant NoEmpty(modelPlans)
      invariant models.Keys == modelPlans.Keys
      invariant CarriedFrom(models, previous)
      decreases |todo|
    {
      var slug :| slug in todo;
      ghost var keys := models.Keys;
      if slug !in models && slug in previous.models {
        models := models[slug := previous.models[slug]];
      }
      assert models.Keys == keys + {slug};
      AddLists(modelPlans, slug, plan);
      modelPlans := Add(modelPlans, slug, plan);
      todo := todo - {slug};
    }
  }

  lemma PlanModelsKnown(s: Snapshot, plan: string)
    requires Coherent(s)
    ensures At(s.planModels, plan) <= s.models.Keys
  {
    forall slug | slug in At(s.planModels, plan) ensures slug in s.models {
      assert Lists(s.planModels, plan, slug) && Lists(s.modelPlans, slug, plan);
    }
  }

  /** Merge what was fetched, plan by plan; later models replace earlier ones with their slug. */
  method MergeFetched(results: Results, models0: map<string, Model>, modelPlans0: Index)
    returns (models: map<string, Model>, modelPlans: Index)
    requires models0.Keys == modelPlans0.Keys && NoEmpty(modelPlans0)
    ensures forall slug, plan :: Lists(modelPlans, slug, plan) <==> Lists(modelPlans0, slug, plan) || Fetched(results, plan, slug)
    ensures NoEmpty(modelPlans)
    ensures models.Keys == modelPlans.Keys
    ensures forall slug :: slug in models ==>
              Some(models[slug]) == if LastFetched(results, slug).Some? then LastFetched(results, slug)
                                    else if slug in models0 then Some(models0[slug]) else None
  {
    models, modelPlans := models0, modelPlans0;
    for i := 0 to |results|
      invariant forall slug, plan :: Lists(modelPlans, slug, plan) <==>
                  Lists(modelPlans0, slug, plan) || Fetched(results[..i], plan, slug)
      invariant NoEmpty(modelPlans)
      invariant models.Keys == modelPlans.Keys
      invariant forall slug :: slug in models ==>
                  Some(models[slug]) == if LastFetched(results[..i], slug).Some? then LastFetched(results[..i], slug)
                                        else if slug in models0 then Some(models0[slug]) else None
    {
      FetchedSnoc(results, i);
      models, modelPlans := MergePlan(results[i], models, modelPlans);
    }
    assert results[..|results|] == results;
  }

  lemma FetchedSnoc(results: Results, i: nat)
    requires i < |results|
    ensures forall plan, slug :: Fetched(results[..i + 1], plan, slug) <==>
              Fetched(results[..i], plan, slug) || (results[i].plan == plan && Offers(results[i], slug))
    ensures forall slug :: LastFetched(results[..i + 1], slug) ==
              if LastIn(results[i].models, slug).Some? then LastIn(results[i].models, slug) else LastFetched(results[..i], slug)
  {
    var r := results[..i + 1];
    assert |r| - 1 == i && r[..i] == results[..i] && r[i] == results[i];
    forall plan, slug
      ensures Fetched(r, plan, slug) <==> Fetched(results[..i], plan, slug) || (results[i].plan == plan && Offers(results[i], slug))
    {
      if Fetched(results[..i], plan, slug) {
        var k :| 0 <= k < i && results[..i][k].plan == plan && Offers(results[..i][k], slug);
        assert r[k].plan == plan && Offers(r[k], slug);
      }
      if results[i].plan == plan && Offers(results[i], slug) {
        assert r[i].plan == plan && Offers(r[i], slug);
      }
    }
  }

  method MergePlan(r: PlanResult, models0: map<string, Model>, modelPlans0: Index)
    returns (models: map<string, Model>, modelPlans: Index)
    requires models0.Keys == modelPlans0.Keys && NoEmpty(modelPlans0)
    ensures forall slug, plan :: Lists(modelPlans, slug, plan) <==> Lists(modelPlans0, slug, plan) || (plan == r.plan && Offers(r, slug))
    ensures NoEmpty(modelPlans)
    ensures models.Keys == modelPlans.Keys
    ensures forall slug :: slug in models ==>
              Some(models[slug]) == if LastIn(r.models, slug).Some? then LastIn(r.models, slug)
                                    else if slug in models0 then Some(models0[slug]) else None
  {
    models, modelPlans := models0, modelPlans0;
    for k := 0 to |r.models|
      invariant forall slug, plan :: Lists(modelPlans, slug, plan) <==>
                  Lists(modelPlans0, slug, plan) || (plan == r.plan && Offers(PlanResult(r.plan, r.models[..k]), slug))
      invariant NoEmpty(modelPlans)
      invariant models.Keys == modelPlans.Keys
      invariant forall slug :: slug in models ==>
                  Some(models[slug]) == if LastIn(r.models[..k], slug).Some? then LastIn(r.models[..k], slug)
                                        else if slug in models0 then Some(models0[slug]) else None
    {
      var model := r.models[k];
      OffersSnoc(r, k);
      models := models[model.slug := model];
      AddLists(modelPlans, model.slug, r.plan);
      modelPlans := Add(modelPlans, model.slug, r.plan);
    }
    assert r.models[..|r.models|] == r.models;
  }

  lemma OffersSnoc(r: PlanResult, k: nat)
    requires k < |r.models|
    ensures forall slug :: Offers(PlanResult(r.plan, r.models[..k + 1]), slug) <==>
              Offers(PlanResult(r.plan, r.models[..k]), slug) || r.models[k].slug == slug
    ensures forall slug :: LastIn(r.models[..k + 1], slug) ==
              if r.models[k].slug == slug then Some(r.models[k]) else LastIn(r.models[..k], slug)
  {
    var m := r.models[..k + 1];
    assert |m| - 1 == k && m[..k] == r.models[..k] && m[k] == r.models[k];
    assert forall i :: 0 <= i < k ==> m[i] == r.models[..k][i];
    forall slug ensures LastIn(m, slug) == if r.models[k].slug == slug then Some(r.models[k]) else LastIn(r.models[..k], slug) {
    }
  }

  /** The reverse index. */
  method Reverse(modelPlans: Index) returns (planModels: Index)
    ensures forall slug, plan :: Lists(planModels, plan, slug) <==> Lists(modelPlans, slug, plan)
    ensures NoEmpty(planModels)
  {
    planModels := map[];
    var todo := modelPlans.Keys;
    while todo != {}
      invariant todo <= modelPlans.Keys
      invariant forall slug, plan :: Lists(planModels, plan, slug) <==> slug !in todo && Lists(modelPlans, slug, plan)
      invariant NoEmpty(planModels)
      decreases |todo|
    {
      var slug :| slug in todo;
      planModels := AddToAll(planModels, modelPlans[slug], slug);
      todo := todo - {slug};
    }
  }

  method AddToAll(index: Index, keys: set<string>, x: string) returns (r: Index)
    requires NoEmpty(index)
    ensures forall k, y :: Lists(r, k, y) <==> Lists(index, k, y) || (k in keys && y == x)
    ensures NoEmpty(r)
  {
    r := index;
    var todo := keys;
    while todo != {}
      invariant todo <= keys
      invariant forall k, y :: Lists(r, k, y) <==> Lists(index, k, y) || (k in keys && k !in todo && y == x)
      invariant NoEmpty(r)
      decreases |todo|
    {
      var key :| key in todo;
      AddLists(r, key, x);
      r := Add(r, key, x);
      todo := todo - {key};
    }
  }

  class Registry {
    var snapshot: Option<Snapshot>

    constructor ()
      ensures snapshot.None?
    {
      snapshot := None;
    }

    method Update(results: Results, now: real)
      requires DistinctPlans(results) && CoherentOpt(snapshot)
      modifies this
      ensures Updated(old(snapshot), results, snapshot) && CoherentOpt(snapshot)
    {
      if results == [] {
        return;
      }
      var models: map<string, Model>, modelPlans: Index := map[], map[];
      if snapshot.Some? {
        var refreshed := set i | 0 <= i < |results| :: results[i].plan;
        var stale := snapshot.value.planModels.Keys - refreshed;
        models, modelPlans := CarryOver(snapshot.value, stale);
      }
      ghost var before := snapshot;
      assert forall slug, plan :: Lists(modelPlans, slug, plan) <==> !Includes(results, plan) && ListedBefore(before, plan, slug);
      models, modelPlans := MergeFetched(results, models, modelPlans);
      var planModels := Reverse(modelPlans);
      snapshot := Some(Snapshot(models, modelPlans, planModels, now));
    }
  }

  // ---- Over every sequence of updates ----

  /** Snapshots before, between and after the updates, from an empty registry. */
  ghost predicate IsHistory(updates: seq<Results>, snaps: seq<Option<Snapshot>>) {
    && |snaps| == |updates| + 1 && snaps[0].None?
    && forall i :: 0 <= i < |updates| ==> UpdatedAt(updates, snaps, i)
  }

  ghost predicate UpdatedAt(updates: seq<Results>, snaps: seq<Option<Snapshot>>, i: nat)
    requires i < |updates| && |snaps| == |updates| + 1
  {
    Updated(snaps[i], updates[i], snaps[i + 1])
  }

  /** The latest update that included a plan listed `slug` under it. */
  predicate LatestLists(updates: seq<Results>, plan: string, slug: string) {
    if updates == [] then false
    else
      var last := updates[|updates| - 1];
      if Includes(last, plan) then Fetched(last, plan, slug) else LatestLists(updates[..|updates| - 1], plan, slug)
  }

  /** The model last given for a slug in any update. */
  function LatestModel(updates: seq<Results>, slug: string): Option<Model> {
    if updates == [] then None
    else
      var last := updates[|updates| - 1];
      if LastFetched(last, slug).Some? then LastFetched(last, slug) else LatestModel(updates[..|updates| - 1], slug)
  }

  /** The registry holds exactly what the updates say. */
  ghost predicate Faithful(updates: seq<Results>, s: Option<Snapshot>) {
    && CoherentOpt(s)
    && (forall plan, slug :: ListedBefore(s, plan, slug) <==> LatestLists(updates, plan, slug))
    && (s.Some? ==> forall slug :: slug in s.value.models ==> LatestModel(updates, slug) == Some(s.value.models[slug]))
  }

  lemma UpdateFaithful(updates: seq<Results>, results: Results, before: Option<Snapshot>, after: Option<Snapshot>)
    requires Faithful(updates, before) && Updated(before, results, after)
    ensures Faithful(updates + [results], after)
  {
    var more := updates + [results];
    assert more[..|more| - 1] == updates && more[|more| - 1] == results;
    forall plan, slug ensures ListedBefore(after, plan, slug) <==> LatestLists(more, plan, slug) {
      assert ListedBefore(before, plan, slug) <==> LatestLists(updates, plan, slug);
    }
  }

  /** After any sequence of updates each plan's models are those of the latest update that included
      it, the two indices are exact inverses, and every model is the latest given for its slug. */
  lemma {:induction false} HistoryFaithful(updates: seq<Results>, snaps: seq<Option<Snapshot>>, n: nat)
    requires IsHistory(updates, snaps) && n <= |updates|
    ensures Faithful(updates[..n], snaps[n])
  {
    if n == 0 {
      assert updates[..0] == [];
    } else {
      HistoryFaithful(updates, snaps, n - 1);
      assert UpdatedAt(updates, snaps, n - 1);
      UpdateFaithful(updates[..n - 1], updates[n - 1], snaps[n - 1], snaps[n]);
      assert updates[..n] == updates[..n - 1] + [updates[n - 1]];
    }
  }
}
