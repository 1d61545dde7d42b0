/** Job inputs (src/input.rs, trait `JobInput` and its implementations): each input kind
    reports a readiness status and, once ready, yields the item the job runs with. */
module Inputs {
  import opened Wrappers
  import opened Ecs
  import opened Readiness

  datatype CachedRenderPipelineId = CachedRenderPipelineId(index: nat)
  datatype CachedComputePipelineId = CachedComputePipelineId(index: nat)
  datatype RenderPipeline = RenderPipeline(handle: nat)
  datatype ComputePipeline = ComputePipeline(handle: nat)

  /** What the pipeline cache reports about one cached pipeline. */
  datatype CachedPipelineState<P> = Queued | Creating | Ok(pipeline: P) | Err

  /** The read-only view of the pipeline cache that input statuses consult. Compilation
      happens outside the model, so the cache is a pair of oracles from id to state. */
  datatype PipelineCache = PipelineCache(
    renderState: CachedRenderPipelineId -> CachedPipelineState<RenderPipeline>,
    computeState: CachedComputePipelineId -> CachedPipelineState<ComputePipeline>)

  /** The query data of a job input, one constructor per input kind. `C` stands for the
      job's components and `B` for a prepared bind group of the job type. */
  datatype InputData<C, B> =
    | EntityInput(entity: Entity)                                // `Entity`
    | MainEntityInput(mainEntity: Entity)                        // `MainEntity`
    | ComponentInput(component: C)                               // `&T`
    | OptionInput(option: Option<C>)                             // `Option<T>`
    | BindGroupInput(prepared: Option<B>)                        // `JobAsBindGroup`
    | RenderPipelineInput(renderId: Option<CachedRenderPipelineId>)    // `JobRenderPipeline<P>`
    | ComputePipelineInput(computeId: Option<CachedComputePipelineId>) // `JobComputePipeline<P>`
    | TupleInput(members: seq<InputData<C, B>>)                  // `(T0, T1, ...)`

  /** The item handed to a job's `run`, one constructor per kind of item. */
  datatype InputItem<C, B> =
    | EntityItem(entity: Entity)
    | ComponentItem(component: C)
    | OptionItem(option: Option<C>)
    | BindGroupItem(bindGroup: B)
    | RenderPipelineItem(renderPipeline: RenderPipeline)
    | ComputePipelineItem(computePipeline: ComputePipeline)
    | TupleItem(items: seq<InputItem<C, B>>)

  /** Status of `JobAsBindGroup`: ready exactly when the job's bind group has been prepared. */
  function BindGroupStatus<B>(prepared: Option<B>): (r: JobInputStatus)
    ensures r == Ready <==> prepared.Some?
    ensures r != Fail
  {
    match prepared
    case Some(_) => Ready
    case None => Wait
  }

  /** Status of a pipeline input: waits until a cached id is attached, and then is ready
      exactly when the cache reports that pipeline compiled. */
  function PipelineStatus<Id, P>(id: Option<Id>, state: Id -> CachedPipelineState<P>): (r: JobInputStatus)
    ensures id.None? ==> r == Wait
    ensures r == Ready <==> id.Some? && state(id.value).Ok?
    ensures r != Fail
  {
    match id
    case None => Wait
    case Some(i) => if state(i).Ok? then Ready else Wait
  }

  /** The status of an input. The direct kinds are always ready, a bind-group input is
      ready once its bind group is prepared, a pipeline input once its pipeline compiled,
      and a tuple (which folds `Combine` over its members from `Ready`) once every member
      is; a tuple fails exactly when a member fails. */
  function Status<C, B>(d: InputData<C, B>, cache: PipelineCache): (r: JobInputStatus)
    ensures d.EntityInput? || d.MainEntityInput? || d.ComponentInput? || d.OptionInput? ==> r == Ready
    ensures d.BindGroupInput? ==> (r == Ready <==> d.prepared.Some?) && r != Fail
    ensures d.RenderPipelineInput? ==>
      (r == Ready <==> d.renderId.Some? && cache.renderState(d.renderId.value).Ok?) && r != Fail
    ensures d.ComputePipelineInput? ==>
      (r == Ready <==> d.computeId.Some? && cache.computeState(d.computeId.value).Ok?) && r != Fail
    ensures d.TupleInput? ==>
      (r == Ready <==> forall i :: 0 <= i < |d.members| ==> Status(d.members[i], cache) == Ready)
    ensures d.TupleInput? ==>
      (r == Fail <==> exists i :: 0 <= i < |d.members| && Status(d.members[i], cache) == Fail)
    decreases d, 1
  {
    match d
    case EntityInput(_) => Ready
    case MainEntityInput(_) => Ready
    case ComponentInput(_) => Ready
    case OptionInput(_) => Ready
    case BindGroupInput(prepared) => BindGroupStatus(prepared)
    case RenderPipelineInput(id) => PipelineStatus(id, cache.renderState)
    case ComputePipelineInput(id) => PipelineStatus(id, cache.computeState)
    case TupleInput(ms) => FoldStatus(MemberStatuses(d, cache))
  }

  /** The statuses of the members of a tuple input, in member order. */
  function MemberStatuses<C, B>(d: InputData<C, B>, cache: PipelineCache): (ss: seq<JobInputStatus>)
    requires d.TupleInput?
    ensures |ss| == |d.members|
    ensures forall i :: 0 <= i < |ss| ==> ss[i] == Status(d.members[i], cache)
    decreases d, 0
  {
    seq(|d.members|, i requires 0 <= i < |d.members| => Status(d.members[i], cache))
  }

  /** `item` is what `get` yields for input `d`: the data itself for the direct kinds, the
      prepared bind group, the compiled pipeline, and one item per member for a tuple. */
  ghost predicate Produces<C, B>(d: InputData<C, B>, cache: PipelineCache, item: InputItem<C, B>)
    decreases d
  {
    match d
    case EntityInput(e) => item.EntityItem? && item.entity == e
    case MainEntityInput(e) => item.EntityItem? && item.entity == e
    case ComponentInput(c) => item.ComponentItem? && item.component == c
    case OptionInput(o) => item.OptionItem? && item.option == o
    case BindGroupInput(prepared) =>
      prepared.Some? && item.BindGroupItem? && item.bindGroup == prepared.value
    case RenderPipelineInput(id) =>
      && id.Some? && cache.renderState(id.value).Ok?
      && item.RenderPipelineItem? && item.renderPipeline == cache.renderState(id.value).pipeline
    case ComputePipelineInput(id) =>
      && id.Some? && cache.computeState(id.value).Ok?
      && item.ComputePipelineItem? && item.computePipeline == cache.computeState(id.value).pipeline
    case TupleInput(ms) =>
      && item.TupleItem? && |item.items| == |ms|
      && forall i :: 0 <= i < |ms| ==> Produces(ms[i], cache, item.items[i])
  }

  /** The item of a ready input. The source unwraps the prepared bind group and expects the
      compiled pipeline here, so `get` may only be called once the status is `Ready`. */
  function Get<C, B>(d: InputData<C, B>, cache: PipelineCache): (r: InputItem<C, B>)
    requires Status(d, cache) == Ready
    ensures Produces(d, cache, r)
    decreases d
  {
    match d
    case EntityInput(e) => EntityItem(e)
    case MainEntityInput(e) => EntityItem(e)
    case ComponentInput(c) => ComponentItem(c)
    case OptionInput(o) => OptionItem(o)
    case BindGroupInput(prepared) => BindGroupItem(prepared.value)
    case RenderPipelineInput(id) => RenderPipelineItem(cache.renderState(id.value).pipeline)
    case ComputePipelineInput(id) => ComputePipelineItem(cache.computeState(id.value).pipeline)
    case TupleInput(ms) =>
      var ss := MemberStatuses(d, cache);
      assert forall i :: 0 <= i < |ms| ==> Status(ms[i], cache) == ss[i] == Ready;
      TupleItem(seq(|ms|, i requires 0 <= i < |ms| => Get(ms[i], cache)))
  }

  /** `Entity`, `MainEntity`, `&T` and `Option<T>` inputs are ready whatever their data,
      and `get` hands the data over unchanged. */
  lemma DirectInputsAlwaysReady<C, B>(d: InputData<C, B>, cache: PipelineCache)
    requires d.EntityInput? || d.MainEntityInput? || d.ComponentInput? || d.OptionInput?
    ensures Status(d, cache) == Ready
    ensures d.EntityInput? ==> Get(d, cache) == EntityItem(d.entity)
    ensures d.MainEntityInput? ==> Get(d, cache) == EntityItem(d.mainEntity)
    ensures d.ComponentInput? ==> Get(d, cache) == ComponentItem(d.component)
    ensures d.OptionInput? ==> Get(d, cache) == OptionItem(d.option)
  {
  }

  /** A compute pipeline input follows the same table as a render pipeline input: it waits
      without a cached id, is ready exactly when the cache reports the pipeline compiled,
      and then yields that compiled pipeline. */
  lemma ComputePipelineInputStatus<C, B>(id: Option<CachedComputePipelineId>, cache: PipelineCache)
    ensures var d: InputData<C, B> := ComputePipelineInput(id);
      && (id.None? ==> Status(d, cache) == Wait)
      && (Status(d, cache) == Ready <==> id.Some? && cache.computeState(id.value).Ok?)
      && Status(d, cache) != Fail
      && (Status(d, cache) == Ready ==>
            Get(d, cache) == ComputePipelineItem(cache.computeState(id.value).pipeline))
  {
  }

  /** A tuple input fails exactly when some member fails, is ready exactly when every member
      is ready (the empty tuple is ready), and waits otherwise. */
  lemma TupleStatus<C, B>(ms: seq<InputData<C, B>>, cache: PipelineCache)
    ensures Status(TupleInput(ms), cache) == Fail <==>
      exists i :: 0 <= i < |ms| && Status(ms[i], cache) == Fail
    ensures Status(TupleInput(ms), cache) == Ready <==>
      forall i :: 0 <= i < |ms| ==> Status(ms[i], cache) == Ready
    ensures Status(TupleInput(ms), cache) == Wait <==>
      && (forall i :: 0 <= i < |ms| ==> Status(ms[i], cache) != Fail)
      && (exists i :: 0 <= i < |ms| && Status(ms[i], cache) == Wait)
  {
    var d: InputData<C, B> := TupleInput(ms);
    var r := Status(d, cache);
    if r == Wait {
      var ss := MemberStatuses(d, cache);
      var k :| 0 <= k < |ss| && ss[k] == Wait;
    }
  }

  /** No input of the modelled kinds ever reports `Fail`: no leaf kind can, and a tuple
      fails only through a failing member. */
  lemma {:induction false} NoInputFails<C, B>(d: InputData<C, B>, cache: PipelineCache)
    ensures Status(d, cache) != Fail
    decreases d
  {
    match d
    case TupleInput(ms) =>
      forall i | 0 <= i < |ms|
        ensures Status(ms[i], cache) != Fail
      {
        NoInputFails(ms[i], cache);
      }
      TupleStatus(ms, cache);
    case _ =>
  }

  /** Nesting does not matter: a pair of tuples has the status of the tuple of all their
      members. */
  lemma TupleFlatten<C, B>(a: seq<InputData<C, B>>, b: seq<InputData<C, B>>, cache: PipelineCache)
    ensures Status(TupleInput([TupleInput(a), TupleInput(b)]), cache) == Status(TupleInput(a + b), cache)
  {
    var ta: InputData<C, B> := TupleInput(a);
    var tb: InputData<C, B> := TupleInput(b);
    var sa := MemberStatuses(ta, cache);
    var sb := MemberStatuses(tb, cache);
    StatusIsFold(a, cache);
    StatusIsFold(b, cache);
    StatusIsFold(a + b, cache);
    StatusIsFold([ta, tb], cache);
    MemberStatusesAppend(a, b, cache);
    MemberStatusesPair(ta, tb, cache);
    FoldStatusNested(sa, sb);
  }

  /** The status of a tuple is `combine` folded over its member statuses from `Ready`. */
  lemma StatusIsFold<C, B>(ms: seq<InputData<C, B>>, cache: PipelineCache)
    ensures Status(TupleInput(ms), cache) == FoldStatus(MemberStatuses(TupleInput(ms), cache))
  {
  }

  /** The member statuses of a pair are the statuses of its two members. */
  lemma MemberStatusesPair<C, B>(x: InputData<C, B>, y: InputData<C, B>, cache: PipelineCache)
    ensures MemberStatuses(TupleInput([x, y]), cache) == [Status(x, cache), Status(y, cache)]
  {
  }

  /** The member statuses of a concatenation are the two lists of member statuses, joined. */
  lemma MemberStatusesAppend<C, B>(a: seq<InputData<C, B>>, b: seq<InputData<C, B>>, cache: PipelineCache)
    ensures MemberStatuses(TupleInput(a + b), cache) ==
      MemberStatuses(TupleInput(a), cache) + MemberStatuses(TupleInput(b), cache)
  {
    var sa := MemberStatuses(TupleInput(a), cache);
    var sb := MemberStatuses(TupleInput(b), cache);
    var sab := MemberStatuses(TupleInput(a + b), cache);
    forall i | 0 <= i < |sab|
      ensures sab[i] == (sa + sb)[i]
    {
      if i < |a| {
        assert (a + b)[i] == a[i];
      } else {
        assert (a + b)[i] == b[i - |a|];
      }
    }
  }

  /** An input yields at most one item. */
  lemma {:induction false} ProducesUnique<C, B>(d: InputData<C, B>, cache: PipelineCache,
                                                x: InputItem<C, B>, y: InputItem<C, B>)
    requires Produces(d, cache, x) && Produces(d, cache, y)
    ensures x == y
    decreases d
  {
    match d
    case TupleInput(ms) =>
      forall i | 0 <= i < |ms|
        ensures x.items[i] == y.items[i]
      {
        ProducesUnique(ms[i], cache, x.items[i], y.items[i]);
      }
      assert x.items == y.items;
    case _ =>
  }

  /** `get` is defined exactly on the ready inputs: an input yields an item if and only if
      its status is `Ready`, and `Get` returns that item. */
  lemma {:induction false} ReadyIffProduces<C, B>(d: InputData<C, B>, cache: PipelineCache, item: InputItem<C, B>)
    ensures Produces(d, cache, item) ==> Status(d, cache) == Ready && Get(d, cache) == item
    ensures Status(d, cache) == Ready ==> Produces(d, cache, Get(d, cache))
    decreases d
  {
    if Produces(d, cache, item) {
      match d
      case TupleInput(ms) =>
        forall i | 0 <= i < |ms|
          ensures Status(ms[i], cache) == Ready
        {
          ReadyIffProduces(ms[i], cache, item.items[i]);
        }
        TupleStatus(ms, cache);
        ProducesUnique(d, cache, Get(d, cache), item);
      case _ =>
    }
  }

  /** Tuple `get` yields one item per member, in member order. */
  lemma TupleGetInOrder<C, B>(ms: seq<InputData<C, B>>, cache: PipelineCache)
    requires Status(TupleInput(ms), cache) == Ready
    ensures forall i :: 0 <= i < |ms| ==> Status(ms[i], cache) == Ready
    ensures Get(TupleInput(ms), cache).TupleItem?
    ensures |Get(TupleInput(ms), cache).items| == |ms|
    ensures forall i :: 0 <= i < |ms| ==> Get(TupleInput(ms), cache).items[i] == Get(ms[i], cache)
  {
    TupleStatus(ms, cache);
    var r := Get(TupleInput(ms), cache);
    forall i | 0 <= i < |ms|
      ensures r.items[i] == Get(ms[i], cache)
    {
      ProducesUnique(ms[i], cache, r.items[i], Get(ms[i], cache));
    }
  }
}
