# Graphics-job readiness, modelled in Dafny

This project models the readiness core of a crate that runs short GPU "graphics jobs"
inside a Bevy application. A job declares a tuple of inputs. Each input kind reports a
three-valued `JobInputStatus` (`Ready`, `Wait`, `Fail`), and the statuses are joined
by `combine`. Once the status is `Ready`, the input yields the item the job runs with.
Two per-tick systems attach state that some inputs wait for:

- a prepared bind group, built by `as_bind_group`;
- a cached pipeline id, returned by `specialize`.

When a job is first marked in the main world, extraction copies it and its metadata
(priority, computed priority, dependencies) to its render-world entity. The initial
`JobStatus` is `Waiting` or `Blocked`, depending on whether the job has dependencies.

Modules:

- `Wrappers`: `Option` and `Result`.
- `Ecs`: entities, distinct iteration orders (`Visits`) and the "entry unchanged" relation.
- `Readiness`: `JobInputStatus`, `Combine` and the tuple fold `FoldStatus`, with the
  algebraic laws of `Combine`.
- `Inputs`: the input kinds as one datatype. A tuple is the recursive `TupleInput`.
  Also their `Status` and `Get`, and the relation `Produces`, which says what `get`
  yields.
- `Passes`: the three per-tick systems as pure map transformers. A generic `RunPass`
  underlies them.
- `Jobs`: `JobId`, `JobStatus`, the initial-status rule, `extract_job_meta` and `extract_jobs`.

External operations are parameters:

- The pipeline cache is a pair of functions from pipeline id to `CachedPipelineState`.
- `as_bind_group` and `specialize` are functions `(S, X) -> (S, R)`. They thread their
  own state (the system parameter, the specializer), because both take it by `&mut`.
  So the model never assumes that `specialize` is memoized.
- A queued command insertion is an immediate map update.
- A query is given by its iteration order. `Visits` states that the order lists each
  matching entity exactly once. The `Added`/`Changed` filters appear as a flag on each
  main-world entity and as a set of changed entities. Each main-world entity may lack the
  job component or any of the three metadata components; a query matches only the
  entities that carry what it asks for.

Behaviour worth noting, as the code has it:

- No built-in input kind ever reports `Fail`, so no input built from them does
  (`Inputs.NoInputFails`). `JobInput` is a public trait, and an input kind defined
  elsewhere may report `Fail`; such kinds are not modelled.
- `prepare_job_bind_group` has no change filter. On every tick it attempts to rebuild the
  bind group of every job, and replaces the previous one when the attempt succeeds. A
  failed attempt leaves the previous bind group in place.
- Dependency handles are copied to the render world untranslated. They still name
  main-world entities, as the source's own FIXME notes.
- Only the initial status is assigned. No shown code moves a job from `Blocked` to
  `Waiting`, `Ready` or `Done`.

## Model

| member | source | states |
|---|---|---|
| Readiness.Combine | src/input.rs:41-47 | the pair fails iff either status is `Fail`, is ready iff both are `Ready`, and waits iff neither fails and one waits |
| Readiness.CombineIsJoin | src/input.rs:41-47 | `combine` is the maximum in the chain Ready < Wait < Fail |
| Readiness.CombineFailAbsorbs | src/input.rs:43 | `Fail` combined with anything, on either side, is `Fail` |
| Readiness.CombineReadyIdentity | src/input.rs:44-45 | `Ready` is the identity of `combine` on both sides |
| Readiness.CombineCommutative | src/input.rs:41-47 | `combine` is commutative |
| Readiness.CombineAssociative | src/input.rs:41-47 | `combine` is associative |
| Readiness.CombineIdempotent | src/input.rs:41-47 | `combine` is idempotent |
| Readiness.FoldStatus | src/input.rs:95-99 | the left fold of `combine` from `Ready` fails iff some status fails, is ready iff all are ready (so the empty tuple is ready), and waits iff none fails and one waits |
| Readiness.FoldStatusPair | src/input.rs:95-99 | a two-member tuple has the combined status of its members |
| Readiness.FoldStatusAppend | src/input.rs:95-99 | folding a concatenation combines the folds of the two parts |
| Readiness.FoldStatusPermutation | src/input.rs:95-99 | permuting the member statuses does not change the tuple status |
| Inputs.BindGroupStatus | src/input.rs:179-184 | `JobAsBindGroup` is ready iff the prepared bind group is present, and never fails |
| Inputs.PipelineStatus | src/input.rs:273-287 | a pipeline input waits without a cached id, is ready iff the cache state of its id is `Ok`, and never fails |
| Inputs.ComputePipelineInputStatus | src/input.rs:391-413 | the compute pipeline input follows the same table, and when ready yields the compiled pipeline |
| Inputs.DirectInputsAlwaysReady | src/input.rs:117-165 | `Entity`, `MainEntity`, `&T` and `Option<T>` inputs are ready whatever their data, and `get` returns the data unchanged |
| Inputs.TupleStatus | src/input.rs:95-99 | a tuple input fails iff some member fails, is ready iff every member is ready, and waits otherwise |
| Inputs.NoInputFails | src/input.rs:112-405 | no input of any modelled kind, tuples included, ever reports `Fail` |
| Inputs.TupleFlatten | src/input.rs:81-110 | a pair of tuple inputs has the status of the single tuple of all their members |
| Inputs.Status | src/input.rs:95-405 | direct inputs are ready; a bind-group input is ready iff prepared, a pipeline input iff its id's state is `Ok`, and neither fails; a tuple is ready iff every member is and fails iff some member does |
| Inputs.Get | src/input.rs:72-78 | `get` on a ready input yields the item that `Produces` describes: the data itself, the prepared bind group, the compiled pipeline, or one item per tuple member |
| Inputs.ProducesUnique | src/input.rs:102-105 | an input yields at most one item |
| Inputs.ReadyIffProduces | src/input.rs:72-413 | across every `get` impl (the tuple, direct, bind-group and both pipeline kinds): an input yields an item if and only if it is ready, and the item it yields is the one `Get` returns |
| Inputs.TupleGetInOrder | src/input.rs:102-105 | tuple `get` yields one item per member, in member order, each the member's own `get` |
| Passes.RunPass | src/input.rs:234-240 | a pass never removes an entry, adds entries only to the entities it visits, and leaves the operation's state as the calls on the visited items, in order, left it |
| Passes.RunPassEffect | src/input.rs:234-240 | over distinct entities, a pass gives the i-th visited entity the value kept from the i-th call, leaves it unchanged when nothing is kept, and leaves every unvisited entity unchanged |
| Passes.PrepareJobBindGroup | src/input.rs:227-241 | a job whose `as_bind_group` call succeeded gets exactly that bind group; a job whose call failed, and every non-job entity, keeps its entry; no entry is removed; the system parameter ends in the state the `as_bind_group` calls, in query order, left it in |
| Passes.QueueJobPipelines | src/input.rs:353-358 | each changed entity with a key gets exactly the id `specialize` returned for its key; every entity the query does not match keeps its entry; the ids afterwards cover the old ids plus the changed entities; the specializer ends in the state its calls, in query order, left it in |
| Passes.QueueJobRenderPipelines | src/input.rs:346-359 | each entity whose `JobRenderPipeline` key changed gets exactly the render pipeline id `specialize` returned for its key, in query order; every entity the query does not match keeps its id, or its lack of one; the specializer keeps the updates of every call |
| Passes.QueueJobComputePipelines | src/input.rs:464-477 | each entity whose `JobComputePipeline` key changed gets exactly the compute pipeline id `specialize` returned for its key, in query order; every entity the query does not match keeps its id, or its lack of one; the specializer keeps the updates of every call |
| Passes.BindGroupReadyAfterPrepare | src/input.rs:234-240 | after preparation, a job's `JobAsBindGroup` input is ready iff this tick's call succeeded or a bind group was already attached |
| Passes.PipelineReadyAfterQueue | src/input.rs:353-358 | after either queue pass (render or compute pipeline state), a changed entity's pipeline input is ready iff the cache reports `Ok` for the id `specialize` returned for it |
| Jobs.JobId.Id | src/lib.rs:103-105 | the entity a handle returns re-wraps to that same handle |
| Jobs.NewUnchecked | src/lib.rs:99-101 | the new handle unwraps to the entity it was made from |
| Jobs.JobIdRoundTrip | src/lib.rs:95-105 | `new_unchecked(e).id() == e`, re-wrapping a handle's entity gives the handle back, and handles are equal iff their entities are |
| Jobs.InitialStatus | src/lib.rs:135-139 | a new job is `Waiting` iff its dependency list is empty and `Blocked` iff it is not |
| Jobs.ExtractJobMeta | src/lib.rs:119-145 | extraction never removes metadata, and adds it only on the render entities of entities the metadata query matches |
| Jobs.ExtractJobMetaEffect | src/lib.rs:119-145 | the render entity of each newly marked entity carrying the three metadata components gets the initial status for its dependencies, with priority, computed priority and dependencies copied unchanged; every other render entity keeps its metadata |
| Jobs.ExtractJobs | src/lib.rs:112-116 | the batch has at most one pair per queried job |
| Jobs.ExtractJobsAppend | src/lib.rs:112-116 | extraction distributes over concatenation of the query, so pairs keep the query's order |
| Jobs.ExtractJobsMembers | src/lib.rs:109-116 | a pair is in the batch iff it is the render entity and job of some newly marked entity carrying the job component |
| Jobs.ExtractedJobsHaveMeta | src/lib.rs:108-145 | when every job entity carries the metadata components, every render entity that receives a job also receives metadata, and its status is `Waiting` iff that job has no dependencies |

## Left out

- Plugin and `App` registration are wiring with no scheduling logic. This covers `plugin()`, `JobAsBindGroupPlugin`, `JobRenderPipelinePlugin`, `JobComputePipelinePlugin`, `GraphicsJobsPlugin`, `SpecializedGraphicsJobPlugin`, `ExtractComponent` clones and `SyncComponentPlugin`.
- `compute_priorities` and `check_dependencies` (src/lib.rs:155-157) have empty bodies, so there is nothing to model.
- `JobExecutionSettings` (src/lib.rs:50-54) is only stored. The shown code has no per-frame budget, stall timeout or priority ordering.
- Scheduling transitions out of the initial `JobStatus` are absent from the shown code. The erasure system `runner::erase_jobs`, src/meta.rs and src/app.rs are not part of this model. `JobPriority` and `ComputedPriority` are modelled as integers and `JobDependencies` as a sequence of `JobId`.
- Pipeline specialization and compilation live inside the renderer's pipeline cache and are external. `specialize` is a state-threading oracle, so no idempotence or memoization is claimed. The index panic of a pipeline-state lookup on an unknown id is not modelled.
- GPU work is external: `as_bind_group`, `bind_group_layout`, the `FromWorld` layout resource, `RenderDevice` and `GraphicsJob::run`.
- Tuples of 0 to 15 members are generated by a macro. The arity bound is a compile-time limit, so the model allows any length.
- A job's component types are collapsed into one type parameter `C`, and the prepared bind group into `B`.
- Commands are deferred in the source. Here each insertion takes effect immediately and in iteration order, so an insertion replaces any earlier component.
- Inputs.Get: calling `get` on an input that is not ready panics in the source (an `unwrap` on a missing bind group or pipeline id, an `expect` on an uncompiled pipeline). The model makes readiness a precondition of `Get` instead of modelling the panic; `Inputs.ReadyIffProduces` shows this is exactly the set of inputs on which `get` does not panic.
- Jobs.ExtractedJobsHaveMeta: holds only under `Jobs.JobsCarryMeta`, that every entity with the job component also carries `JobPriority`, `ComputedPriority` and `JobDependencies`. The two queries ask for different components, and whether these are required components is decided in src/meta.rs, which is not part of this model.
- Every main-world entity is given a render entity (`RenderEntity`). The sync machinery that creates it is not part of this model.
- Jobs.ExtractJobs: its own contract only bounds the batch length. The pairs and their order are stated by `Jobs.ExtractJobsMembers` and `Jobs.ExtractJobsAppend`.
- The passes in `Passes` require `Visits`: query iteration lists each matching entity once. `Jobs.ExtractJobMetaEffect` requires distinct render entities, because each main-world entity has its own render-world counterpart.
