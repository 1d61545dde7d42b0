/** The per-tick systems of src/input.rs that attach prepared state to job entities:
    `prepare_job_bind_group`, `queue_job_render_pipelines` and `queue_job_compute_pipelines`.
    Each visits the entities of a query in iteration order, calls an external operation that
    may update its own state (`as_bind_group` with its system parameter, `specialize` with the
    pipeline specializer), and queues a component insertion. A queued insertion is modelled as
    an immediate update of the component map. */
module Passes {
  import opened Wrappers
  import opened Ecs
  import Inputs
  import opened Readiness

  /** The component map a pass writes, and the final state of the operation it called. */
  datatype PassResult<V, S> = PassResult(store: map<Entity, V>, state: S)

  /** The query items of the visited entities, in visiting order. */
  function Gather<X>(order: seq<Entity>, items: map<Entity, X>): (xs: seq<X>)
    requires forall i :: 0 <= i < |order| ==> order[i] in items
    ensures |xs| == |order|
    ensures forall i :: 0 <= i < |order| ==> xs[i] == items[order[i]]
  {
    seq(|order|, i requires 0 <= i < |order| => items[order[i]])
  }

  /** What a stateful operation returns on each of `xs` in turn, its state threaded from
      one call to the next. */
  function Calls<S, X, R>(s: S, xs: seq<X>, op: (S, X) -> (S, R)): (rs: seq<R>)
    ensures |rs| == |xs|
  {
    if |xs| == 0 then []
    else
      var (s', r) := op(s, xs[0]);
      [r] + Calls(s', xs[1..], op)
  }

  /** The state a stateful operation is left in after it was called on each of `xs` in
      turn: what the source's `&mut` parameter holds once the loop ends. */
  function FinalState<S, X, R>(s: S, xs: seq<X>, op: (S, X) -> (S, R)): S
  {
    if |xs| == 0 then s else FinalState(op(s, xs[0]).0, xs[1..], op)
  }

  /** One pass: for each visited entity, call `op` on its query item and insert the value
      `keep` extracts from the result, if any. A pass never removes an entry, and it adds
      entries only to visited entities, and it leaves the operation's state as the calls on
      the visited items in order left it. */
  function RunPass<S, X, R, V>(order: seq<Entity>, items: map<Entity, X>, store: map<Entity, V>,
                               s: S, op: (S, X) -> (S, R), keep: R -> Option<V>): (r: PassResult<V, S>)
    requires forall i :: 0 <= i < |order| ==> order[i] in items
    ensures store.Keys <= r.store.Keys
    ensures forall e :: e in r.store && e !in store ==> e in order
    ensures r.state == FinalState(s, Gather(order, items), op)
    decreases |order|
  {
    if |order| == 0 then PassResult(store, s)
    else
      assert Gather(order, items)[1..] == Gather(order[1..], items);
      var (s', r) := op(s, items[order[0]]);
      var store' := if keep(r).Some? then store[order[0] := keep(r).value] else store;
      RunPass(order[1..], items, store', s', op, keep)
  }

  /** The effect of a pass over distinct entities: the i-th visited entity gets the value
      kept from the i-th call's result, keeps its old entry when nothing is kept, and
      entities not visited keep their entries. */
  ghost predicate PassEffect<R, V>(order: seq<Entity>, results: seq<R>, keep: R -> Option<V>,
                                   store: map<Entity, V>, store': map<Entity, V>)
    requires |results| == |order|
  {
    && (forall i :: 0 <= i < |order| && keep(results[i]).Some? ==>
          order[i] in store' && store'[order[i]] == keep(results[i]).value)
    && (forall i :: 0 <= i < |order| && keep(results[i]).None? ==>
          Unchanged(store, store', order[i]))
    && (forall e :: e !in order ==> Unchanged(store, store', e))
  }

  /** One step of a pass: visiting `e0` first and then `rest` has the effect of visiting
      `rest` on the map that the first call left. */
  lemma PassEffectCons<R, V>(e0: Entity, rest: seq<Entity>, r0: R, tail: seq<R>, keep: R -> Option<V>,
                             store: map<Entity, V>, store': map<Entity, V>, final: map<Entity, V>)
    requires e0 !in rest
    requires |tail| == |rest|
    requires store' == if keep(r0).Some? then store[e0 := keep(r0).value] else store
    requires PassEffect(rest, tail, keep, store', final)
    ensures PassEffect([e0] + rest, [r0] + tail, keep, store, final)
  {
    var order, results := [e0] + rest, [r0] + tail;
    assert Unchanged(store', final, e0);
    forall i | 0 <= i < |order| && keep(results[i]).None?
      ensures Unchanged(store, final, order[i])
    {
      if i > 0 {
        assert order[i] == rest[i - 1] && results[i] == tail[i - 1];
      }
    }
    forall i | 0 <= i < |order| && keep(results[i]).Some?
      ensures order[i] in final && final[order[i]] == keep(results[i]).value
    {
      if i > 0 {
        assert order[i] == rest[i - 1] && results[i] == tail[i - 1];
      }
    }
    forall e | e !in order
      ensures Unchanged(store, final, e)
    {
      assert e != e0 && e !in rest;
    }
  }

  /** The calls of a pass are the call on the first visited entity followed by the calls on
      the rest, from the state the first call left. */
  lemma CallsCons<S, X, R>(order: seq<Entity>, items: map<Entity, X>, s: S, op: (S, X) -> (S, R))
    requires |order| > 0
    requires forall i :: 0 <= i < |order| ==> order[i] in items
    ensures Calls(s, Gather(order, items), op) ==
      [op(s, items[order[0]]).1] + Calls(op(s, items[order[0]]).0, Gather(order[1..], items), op)
  {
    assert Gather(order, items)[1..] == Gather(order[1..], items);
  }

  /** The store after the first call of a pass: the kept value, if any, on the first
      visited entity. */
  function FirstStore<S, X, R, V>(order: seq<Entity>, items: map<Entity, X>, store: map<Entity, V>,
                                  s: S, op: (S, X) -> (S, R), keep: R -> Option<V>): map<Entity, V>
    requires |order| > 0 && order[0] in items
  {
    var r := op(s, items[order[0]]).1;
    if keep(r).Some? then store[order[0] := keep(r).value] else store
  }

  /** A pass is its first call followed by the pass over the remaining entities. */
  lemma RunPassCons<S, X, R, V>(order: seq<Entity>, items: map<Entity, X>, store: map<Entity, V>,
                                s: S, op: (S, X) -> (S, R), keep: R -> Option<V>)
    requires |order| > 0
    requires forall i :: 0 <= i < |order| ==> order[i] in items
    ensures RunPass(order, items, store, s, op, keep) ==
      RunPass(order[1..], items, FirstStore(order, items, store, s, op, keep),
              op(s, items[order[0]]).0, op, keep)
  {
  }

  lemma {:induction false} RunPassEffect<S, X, R, V>(order: seq<Entity>, items: map<Entity, X>,
                                                     store: map<Entity, V>, s: S,
                                                     op: (S, X) -> (S, R), keep: R -> Option<V>)
    requires forall i :: 0 <= i < |order| ==> order[i] in items
    requires Distinct(order)
    ensures PassEffect(order, Calls(s, Gather(order, items), op), keep, store,
                       RunPass(order, items, store, s, op, keep).store)
    decreases |order|
  {
    if |order| > 0 {
      var rest := order[1..];
      var s' := op(s, items[order[0]]).0;
      var store' := FirstStore(order, items, store, s, op, keep);
      CallsCons(order, items, s, op);
      DistinctTail(order);
      RunPassCons(order, items, store, s, op, keep);
      RunPassEffect(rest, items, store', s', op, keep);
      assert order == [order[0]] + rest;
      PassEffectCons(order[0], rest, op(s, items[order[0]]).1, Calls(s', Gather(rest, items), op),
                     keep, store, store', RunPass(rest, items, store', s', op, keep).store);
    }
  }

  /** Keeps the bind group of a successful `as_bind_group` call and drops a failure. */
  function KeepOk<B, E>(res: Result<B, E>): (o: Option<B>)
    ensures o.Some? <==> res.Ok?
    ensures res.Ok? ==> o.value == res.value
  {
    match res
    case Ok(b) => Some(b)
    case Err(_) => None
  }

  /** `prepare_job_bind_group`: visits every job of the type and, when `as_bind_group`
      succeeds for it, attaches the prepared bind group, replacing an earlier one. A job
      whose call fails is left as it was, and no entry is ever removed. */
  function PrepareJobBindGroup<P, J, B, E>(order: seq<Entity>, jobs: map<Entity, J>,
                                           prepared: map<Entity, B>, param: P,
                                           asBindGroup: (P, J) -> (P, Result<B, E>)): (r: PassResult<B, P>)
    requires Visits(order, jobs.Keys)
    ensures var results := Calls(param, Gather(order, jobs), asBindGroup);
      && (forall i :: 0 <= i < |order| && results[i].Ok? ==>
            order[i] in r.store && r.store[order[i]] == results[i].value)
      && (forall i :: 0 <= i < |order| && results[i].Err? ==>
            Unchanged(prepared, r.store, order[i]))
      && (forall e :: e !in jobs ==> Unchanged(prepared, r.store, e))
    ensures prepared.Keys <= r.store.Keys
    ensures r.state == FinalState(param, Gather(order, jobs), asBindGroup)
  {
    RunPassEffect(order, jobs, prepared, param, asBindGroup, KeepOk);
    var r := RunPass(order, jobs, prepared, param, asBindGroup, KeepOk);
    var results := Calls(param, Gather(order, jobs), asBindGroup);
    assert forall e :: e in prepared && e in order ==> e in r.store by {
      forall e | e in prepared && e in order
        ensures e in r.store
      {
        var i :| 0 <= i < |order| && order[i] == e;
        assert results[i].Ok? || results[i].Err?;
      }
    }
    r
  }

  /** A queue pass inserts every id that `specialize` returns. */
  function KeepId<Id>(id: Id): Option<Id>
  {
    Some(id)
  }

  /** The pass shared by both queue systems: every visited entity gets the id returned for
      its key, and every other entity keeps its entry. */
  function QueueJobPipelines<S, K, Id>(order: seq<Entity>, keys: map<Entity, K>, changed: set<Entity>,
                                       ids: map<Entity, Id>, specializer: S, specialize: (S, K) -> (S, Id))
    : (r: PassResult<Id, S>)
    requires Visits(order, keys.Keys * changed)
    ensures var returned := Calls(specializer, Gather(order, keys), specialize);
      forall i :: 0 <= i < |order| ==> order[i] in r.store && r.store[order[i]] == returned[i]
    ensures forall e :: e !in keys.Keys * changed ==> Unchanged(ids, r.store, e)
    ensures r.store.Keys == ids.Keys + (keys.Keys * changed)
    ensures r.state == FinalState(specializer, Gather(order, keys), specialize)
  {
    RunPassEffect(order, keys, ids, specializer, specialize, KeepId);
    var r := RunPass(order, keys, ids, specializer, specialize, KeepId);
    assert forall e :: e in order ==> e in r.store by {
      forall e | e in order
        ensures e in r.store
      {
        var i :| 0 <= i < |order| && order[i] == e;
      }
    }
    assert forall e :: e in r.store ==> e in ids || e in order;
    r
  }

  /** `queue_job_render_pipelines`: visits exactly the entities whose `JobRenderPipeline`
      key changed, and gives each the id `specialize` returned for its key. Entities whose
      key did not change keep their id, or their lack of one. */
  function QueueJobRenderPipelines<S, K>(order: seq<Entity>, keys: map<Entity, K>, changed: set<Entity>,
                                         ids: map<Entity, Inputs.CachedRenderPipelineId>, specializer: S,
                                         specialize: (S, K) -> (S, Inputs.CachedRenderPipelineId))
    : (r: PassResult<Inputs.CachedRenderPipelineId, S>)
    requires Visits(order, keys.Keys * changed)
    ensures var returned := Calls(specializer, Gather(order, keys), specialize);
      forall i :: 0 <= i < |order| ==> order[i] in r.store && r.store[order[i]] == returned[i]
    ensures forall e :: e !in keys.Keys * changed ==> Unchanged(ids, r.store, e)
    ensures r.store.Keys == ids.Keys + (keys.Keys * changed)
    ensures r.state == FinalState(specializer, Gather(order, keys), specialize)
  {
    QueueJobPipelines(order, keys, changed, ids, specializer, specialize)
  }

  /** `queue_job_compute_pipelines`: the same pass for `JobComputePipeline` keys and
      compute pipeline ids. */
  function QueueJobComputePipelines<S, K>(order: seq<Entity>, keys: map<Entity, K>, changed: set<Entity>,
                                          ids: map<Entity, Inputs.CachedComputePipelineId>, specializer: S,
                                          specialize: (S, K) -> (S, Inputs.CachedComputePipelineId))
    : (r: PassResult<Inputs.CachedComputePipelineId, S>)
    requires Visits(order, keys.Keys * changed)
    ensures var returned := Calls(specializer, Gather(order, keys), specialize);
      forall i :: 0 <= i < |order| ==> order[i] in r.store && r.store[order[i]] == returned[i]
    ensures forall e :: e !in keys.Keys * changed ==> Unchanged(ids, r.store, e)
    ensures r.store.Keys == ids.Keys + (keys.Keys * changed)
    ensures r.state == FinalState(specializer, Gather(order, keys), specialize)
  {
    QueueJobPipelines(order, keys, changed, ids, specializer, specialize)
  }

  /** After the preparation pass, a job's `JobAsBindGroup` input is ready exactly when this
      tick's `as_bind_group` call for it succeeded or a bind group was already attached; it
      still never fails. */
  lemma BindGroupReadyAfterPrepare<P, J, B, E>(order: seq<Entity>, jobs: map<Entity, J>,
                                               prepared: map<Entity, B>, param: P,
                                               asBindGroup: (P, J) -> (P, Result<B, E>))
    requires Visits(order, jobs.Keys)
    ensures var r := PrepareJobBindGroup(order, jobs, prepared, param, asBindGroup);
      var results := Calls(param, Gather(order, jobs), asBindGroup);
      forall i :: 0 <= i < |order| ==>
        var status := Inputs.BindGroupStatus(Lookup(r.store, order[i]));
        && (status == Ready <==> results[i].Ok? || order[i] in prepared)
        && status != Fail
  {
  }

  /** After a queue pass, the pipeline input of each visited entity is ready exactly when
      the cache reports compiled the pipeline whose id `specialize` returned for it. The
      render and compute queues are both instances of this pass, with `state` the cache's
      render or compute pipeline state. */
  lemma PipelineReadyAfterQueue<S, K, Id, P>(order: seq<Entity>, keys: map<Entity, K>, changed: set<Entity>,
                                             ids: map<Entity, Id>, specializer: S,
                                             specialize: (S, K) -> (S, Id),
                                             state: Id -> Inputs.CachedPipelineState<P>)
    requires Visits(order, keys.Keys * changed)
    ensures var r := QueueJobPipelines(order, keys, changed, ids, specializer, specialize);
      var returned := Calls(specializer, Gather(order, keys), specialize);
      forall i :: 0 <= i < |order| ==>
        var status := Inputs.PipelineStatus(Lookup(r.store, order[i]), state);
        status == Ready <==> state(returned[i]).Ok?
  {
  }
}
