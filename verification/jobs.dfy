/** Job identity, status and the extraction of newly marked jobs from the main world into
    the render world (src/lib.rs). `JobPriority`, `ComputedPriority` and `JobDependencies`
    are declared in src/meta.rs, which is not part of this model; they appear here only as
    values that extraction copies. */
module Jobs {
  import opened Wrappers
  import opened Ecs

  /** The scheduling state of a job in the render world. */
  datatype JobStatus = Blocked | Waiting | Ready | Done

  /** A job handle: a transparent wrapper around the job's entity. */
  datatype JobId = JobId(entity: Entity)
  {
    /** The entity this handle wraps. */
    function Id(): (e: Entity)
      ensures JobId(e) == this
    {
      entity
    }
  }

  /** Wraps an entity as a job handle without checking that it is a job. */
  function NewUnchecked(id: Entity): (j: JobId)
    ensures j.Id() == id
  {
    JobId(id)
  }

  /** Unwrapping a new handle gives back its entity, and handles are equal exactly when their
      entities are. */
  lemma JobIdRoundTrip(a: Entity, b: Entity, j: JobId)
    ensures NewUnchecked(a).Id() == a
    ensures NewUnchecked(j.Id()) == j
    ensures NewUnchecked(a) == NewUnchecked(b) <==> a == b
  {
  }

  datatype JobPriority = JobPriority(value: int)
  datatype ComputedPriority = ComputedPriority(value: int)
  /** The jobs this job waits for, as main-world handles. */
  datatype JobDependencies = JobDependencies(ids: seq<JobId>)

  /** The metadata components that extraction inserts on a render-world job entity. */
  datatype JobMeta = JobMeta(status: JobStatus, priority: JobPriority,
                             computed: ComputedPriority, deps: JobDependencies)

  /** A main-world entity carrying a `JobMarker`, as the extraction systems query it: its
      render-world counterpart, whether the marker was added since the last extraction, and
      the components the two queries ask for. Each component may be missing: the job
      component of the extracted job type, and the three metadata components, which are
      declared outside the modelled files. */
  datatype MainJob<J> = MainJob(render: Entity, markerAdded: bool, job: Option<J>,
                                priority: Option<JobPriority>, computed: Option<ComputedPriority>,
                                deps: Option<JobDependencies>)

  /** The entity carries all three metadata components. */
  predicate HasMeta<J>(j: MainJob<J>)
  {
    j.priority.Some? && j.computed.Some? && j.deps.Some?
  }

  /** The entity matches the query of `extract_job_meta`: its marker was just added and it
      carries the three metadata components. */
  predicate MetaQueried<J>(j: MainJob<J>)
  {
    j.markerAdded && HasMeta(j)
  }

  /** The entity matches the query of `extract_jobs`: its marker was just added and it
      carries the job component. */
  predicate JobQueried<J>(j: MainJob<J>)
  {
    j.markerAdded && j.job.Some?
  }

  /** Render entities are distinct across the queried jobs: each main-world entity has its
      own render-world counterpart. */
  predicate DistinctRender<J>(jobs: seq<MainJob<J>>)
  {
    forall i, j :: 0 <= i < j < |jobs| ==> jobs[i].render != jobs[j].render
  }

  /** A job without dependencies starts out waiting for its inputs; any other job starts
      blocked on its dependencies. */
  function InitialStatus(deps: JobDependencies): (s: JobStatus)
    ensures s == Waiting <==> |deps.ids| == 0
    ensures s == Blocked <==> |deps.ids| != 0
  {
    if |deps.ids| == 0 then Waiting else Blocked
  }

  /** The metadata extraction gives a newly marked job. The dependency handles are copied
      as they are, so they still name main-world entities. */
  function MetaOf<J>(j: MainJob<J>): JobMeta
    requires HasMeta(j)
  {
    JobMeta(InitialStatus(j.deps.value), j.priority.value, j.computed.value, j.deps.value)
  }

  /** No entity among `jobs` that the metadata query matches has `e` as its render entity. */
  ghost predicate NotExtractedTo<J>(jobs: seq<MainJob<J>>, e: Entity)
  {
    forall i :: 0 <= i < |jobs| && MetaQueried(jobs[i]) ==> jobs[i].render != e
  }

  /** `extract_job_meta`: inserts metadata on the render entity of every matching entity,
      in query order. No entry is removed, and entries are added only on the render
      entities of matching entities. */
  function ExtractJobMeta<J>(jobs: seq<MainJob<J>>, meta: map<Entity, JobMeta>): (r: map<Entity, JobMeta>)
    ensures meta.Keys <= r.Keys
    ensures forall e :: e in r && e !in meta ==> !NotExtractedTo(jobs, e)
    decreases |jobs|
  {
    if |jobs| == 0 then meta
    else
      var j := jobs[0];
      var meta' := if MetaQueried(j) then meta[j.render := MetaOf(j)] else meta;
      var r := ExtractJobMeta(jobs[1..], meta');
      assert forall e :: NotExtractedTo(jobs, e) ==> NotExtractedTo(jobs[1..], e) by {
        forall e | NotExtractedTo(jobs, e)
          ensures NotExtractedTo(jobs[1..], e)
        {
          forall k | 0 <= k < |jobs[1..]| && MetaQueried(jobs[1..][k])
            ensures jobs[1..][k].render != e
          {
            assert jobs[1..][k] == jobs[k + 1];
          }
        }
      }
      r
  }

  /** The effect of `extract_job_meta`: the render entity of every entity the metadata
      query matches carries a status that is `Waiting` exactly when the job has no
      dependencies (`Blocked` otherwise), and its priority, computed priority and
      dependencies unchanged; every other render entity keeps its metadata, or its lack
      of it. */
  lemma {:induction false} ExtractJobMetaEffect<J>(jobs: seq<MainJob<J>>, meta: map<Entity, JobMeta>)
    requires DistinctRender(jobs)
    ensures var r := ExtractJobMeta(jobs, meta);
      forall i :: 0 <= i < |jobs| && MetaQueried(jobs[i]) ==>
        jobs[i].render in r && r[jobs[i].render] == MetaOf(jobs[i])
    ensures var r := ExtractJobMeta(jobs, meta);
      forall i :: 0 <= i < |jobs| && MetaQueried(jobs[i]) ==>
        && (r[jobs[i].render].status == Waiting <==> |jobs[i].deps.value.ids| == 0)
        && (r[jobs[i].render].status == Blocked <==> |jobs[i].deps.value.ids| != 0)
        && r[jobs[i].render].priority == jobs[i].priority.value
        && r[jobs[i].render].computed == jobs[i].computed.value
        && r[jobs[i].render].deps == jobs[i].deps.value
    ensures var r := ExtractJobMeta(jobs, meta);
      forall e :: NotExtractedTo(jobs, e) ==> Unchanged(meta, r, e)
    decreases |jobs|
  {
    if |jobs| > 0 {
      var j := jobs[0];
      var rest := jobs[1..];
      var meta' := if MetaQueried(j) then meta[j.render := MetaOf(j)] else meta;
      assert DistinctRender(rest) by {
        forall a, b | 0 <= a < b < |rest|
          ensures rest[a].render != rest[b].render
        {
          assert rest[a] == jobs[a + 1] && rest[b] == jobs[b + 1];
        }
      }
      ExtractJobMetaEffect(rest, meta');
      var r := ExtractJobMeta(jobs, meta);
      assert r == ExtractJobMeta(rest, meta');
      forall i | 0 <= i < |jobs| && MetaQueried(jobs[i])
        ensures jobs[i].render in r && r[jobs[i].render] == MetaOf(jobs[i])
      {
        if i == 0 {
          assert NotExtractedTo(rest, j.render) by {
            forall k | 0 <= k < |rest| && MetaQueried(rest[k])
              ensures rest[k].render != j.render
            {
              assert rest[k] == jobs[k + 1];
            }
          }
          assert Unchanged(meta', r, j.render);
        } else {
          assert jobs[i] == rest[i - 1];
        }
      }
      forall e | NotExtractedTo(jobs, e)
        ensures Unchanged(meta, r, e)
      {
        assert NotExtractedTo(rest, e) by {
          forall k | 0 <= k < |rest| && MetaQueried(rest[k])
            ensures rest[k].render != e
          {
            assert rest[k] == jobs[k + 1];
          }
        }
        assert Unchanged(meta', r, e);
      }
    }
  }

  /** `extract_jobs`: one `(render entity, job)` pair per entity the job query matches,
      in query order. */
  function ExtractJobs<J>(jobs: seq<MainJob<J>>): (batch: seq<(Entity, J)>)
    ensures |batch| <= |jobs|
  {
    if |jobs| == 0 then []
    else
      (if JobQueried(jobs[0]) then [(jobs[0].render, jobs[0].job.value)] else []) + ExtractJobs(jobs[1..])
  }

  /** Extraction is compositional: extracting two runs of the query one after the other
      gives the two batches in that order, so pairs keep the query's order. */
  lemma {:induction false} ExtractJobsAppend<J>(a: seq<MainJob<J>>, b: seq<MainJob<J>>)
    ensures ExtractJobs(a + b) == ExtractJobs(a) + ExtractJobs(b)
    decreases |a|
  {
    if |a| > 0 {
      assert (a + b)[0] == a[0];
      assert (a + b)[1..] == a[1..] + b;
      ExtractJobsAppend(a[1..], b);
    } else {
      assert a + b == b;
    }
  }

  /** A pair is extracted exactly when it is the render entity and job of an entity the
      job query matches. */
  lemma {:induction false} ExtractJobsMembers<J>(jobs: seq<MainJob<J>>, p: (Entity, J))
    ensures p in ExtractJobs(jobs) <==>
      exists i :: 0 <= i < |jobs| && JobQueried(jobs[i]) && p == (jobs[i].render, jobs[i].job.value)
    decreases |jobs|
  {
    if |jobs| > 0 {
      ExtractJobsMembers(jobs[1..], p);
      if exists i :: 0 <= i < |jobs[1..]| && JobQueried(jobs[1..][i]) && p == (jobs[1..][i].render, jobs[1..][i].job.value) {
        var i :| 0 <= i < |jobs[1..]| && JobQueried(jobs[1..][i]) && p == (jobs[1..][i].render, jobs[1..][i].job.value);
        assert jobs[i + 1] == jobs[1..][i];
      }
      if exists i :: 0 <= i < |jobs| && JobQueried(jobs[i]) && p == (jobs[i].render, jobs[i].job.value) {
        var i :| 0 <= i < |jobs| && JobQueried(jobs[i]) && p == (jobs[i].render, jobs[i].job.value);
        if i > 0 {
          assert jobs[1..][i - 1] == jobs[i];
        }
      }
    }
  }

  /** Every entity carrying the job component also carries the three metadata components.
      Nothing in the modelled files establishes this; it is the condition under which the
      two extraction queries match the same entities. */
  predicate JobsCarryMeta<J>(jobs: seq<MainJob<J>>)
  {
    forall i :: 0 <= i < |jobs| && jobs[i].job.Some? ==> HasMeta(jobs[i])
  }

  /** When every job entity carries its metadata, the two extraction systems agree: every
      render entity that receives a job in the batch of `extract_jobs` also receives its
      metadata from `extract_job_meta`, with the initial status its dependencies call for. */
  lemma ExtractedJobsHaveMeta<J>(jobs: seq<MainJob<J>>, meta: map<Entity, JobMeta>, p: (Entity, J))
    requires DistinctRender(jobs)
    requires JobsCarryMeta(jobs)
    requires p in ExtractJobs(jobs)
    ensures p.0 in ExtractJobMeta(jobs, meta)
    ensures ExtractJobMeta(jobs, meta)[p.0].status == Waiting <==>
      exists i :: 0 <= i < |jobs| && jobs[i].render == p.0 && jobs[i].deps.Some? && |jobs[i].deps.value.ids| == 0
  {
    ExtractJobsMembers(jobs, p);
    ExtractJobMetaEffect(jobs, meta);
    var i :| 0 <= i < |jobs| && JobQueried(jobs[i]) && p == (jobs[i].render, jobs[i].job.value);
    assert ExtractJobMeta(jobs, meta)[p.0] == MetaOf(jobs[i]);
  }
}
