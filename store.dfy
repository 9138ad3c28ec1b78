/**
 * The store as an object whose operations update it in place. Each method
 * is proved to leave the store in the state the matching function of module
 * Stores describes, so the properties proved there hold of the object.
 */
module JobStore {
  import opened Wrappers
  import opened Arguments
  import opened Jobs
  import opened Stores

  /** Registering `child` with one more parent extends the children sets by that parent. */
  lemma {:induction false} WithChildStep(c: map<JobId, set<JobId>>, parents: seq<JobId>, i: nat, child: JobId)
    requires i < |parents|
    ensures var before := WithChild(c, parents[..i], child);
      var p := parents[i];
      before[p := (if p in before then before[p] else {}) + {child}]
        == WithChild(c, parents[..i + 1], child)
  {
    var before := WithChild(c, parents[..i], child);
    var after := WithChild(c, parents[..i + 1], child);
    var p := parents[i];
    assert parents[..i + 1] == parents[..i] + [p];
    var stepped := before[p := (if p in before then before[p] else {}) + {child}];
    assert stepped.Keys == after.Keys by {
      var pre, post := parents[..i], parents[..i + 1];
      assert (set x | x in post) == (set x | x in pre) + {p};
    }
    forall k | k in after
      ensures stepped[k] == after[k]
    {
    }
  }

  lemma WithNoChild(c: map<JobId, set<JobId>>, child: JobId)
    ensures WithChild(c, [], child) == c
  {
    var w := WithChild(c, [], child);
    assert w.Keys == c.Keys by {
      assert (set x: JobId | x in []) == {};
    }
    forall k | k in c
      ensures w[k] == c[k]
    {
    }
  }

  class Store {
    var records: map<JobId, Record>
    var expiry: map<JobId, Expiry>
    var children: map<JobId, set<JobId>>
    var queues: map<string, seq<JobId>>
    var deferred: map<string, set<JobId>>

    /** The store's contents as a value. */
    function State(): State
      reads this
    {
      Stores.State(records, expiry, children, queues, deferred)
    }

    constructor()
      ensures State() == EmptyStore
    {
      records, expiry, children, queues, deferred := map[], map[], map[], map[], map[];
    }

    /** Deletes the job's record and children set, and removes its id from its origin queue. */
    method Delete(j: Job)
      requires Valid(State())
      modifies this
      ensures State() == AfterDelete(old(State()), j)
      ensures Valid(State())
    {
      records := records - {j.id};
      expiry := expiry - {j.id};
      children := children - {j.id};
      if j.origin.Some? && j.origin.value in queues {
        queues := queues[j.origin.value := RemoveAll(queues[j.origin.value], j.id)];
      }
    }

    /** Applies a TTL to the job's record: none, delete, expire in `ttl` seconds, or persist. */
    method Cleanup(j: Job, ttl: Option<int>)
      requires Valid(State())
      modifies this
      ensures State() == AfterCleanup(old(State()), j, ttl)
      ensures Valid(State())
    {
      if ttl.None? {
        return;
      }
      if ttl.value == 0 {
        Delete(j);
      } else if j.id in records {
        if ttl.value > 0 {
          expiry := expiry[j.id := ExpiresIn(ttl.value)];
        } else {
          expiry := expiry[j.id := NoExpiry];
        }
      }
    }

    /** Writes the job's attributes into its record and applies its TTL; fails for a job without a call. */
    method Save(j: Job) returns (r: Result<(), JobError>)
      requires Valid(State())
      modifies this
      ensures AfterSave(old(State()), j).Err? ==> r == Err(EmptyJob) && State() == old(State())
      ensures AfterSave(old(State()), j).Ok? ==> r.Ok? && State() == AfterSave(old(State()), j).value
      ensures Valid(State())
    {
      if j.callSpec.None? {
        return Err(EmptyJob);
      }
      var existed := j.id in records;
      var rec := if existed then records[j.id] else map[];
      records := records[j.id := rec + Dump(j)];
      if !existed {
        expiry := expiry[j.id := NoExpiry];
      }
      Cleanup(j, j.ttl);
      return Ok(());
    }

    /**
     * Queues the job at the tail of its origin queue if every parent is
     * finished, defers it otherwise, saves it, and registers it as a child
     * of each parent in turn. Returns the job as saved.
     */
    method EnqueueOrDefer(j: Job, now: Timestamp) returns (r: Result<Job, JobError>)
      requires Valid(State()) && j.origin.Some?
      modifies this
      ensures AfterEnqueueOrDefer(old(State()), j, now).Err? ==> r == Err(EmptyJob) && State() == old(State())
      ensures AfterEnqueueOrDefer(old(State()), j, now).Ok? ==>
        r == Ok(AfterEnqueueOrDefer(old(State()), j, now).value.1)
        && State() == AfterEnqueueOrDefer(old(State()), j, now).value.0
      ensures Valid(State())
    {
      if j.callSpec.None? {
        return Err(EmptyJob);
      }
      ghost var s0 := State();
      var q := j.origin.value;
      var ready := AllFinished(State(), j.parentIds);
      var job := if ready then j.(status := Some(Queued), enqueuedAt := Some(now))
                 else j.(status := Some(Deferred));
      var _ := Save(job);
      if ready {
        queues := queues[q := QueueIds(State(), q) + [j.id]];
      } else {
        deferred := deferred[q := DeferredIds(State(), q) + {j.id}];
      }
      ghost var placed := State();
      WithNoChild(children, j.id);
      assert j.parentIds[..0] == [];
      var i := 0;
      while i < |j.parentIds|
        invariant 0 <= i <= |j.parentIds|
        invariant children == WithChild(placed.children, j.parentIds[..i], j.id)
        invariant State() == placed.(children := children)
      {
        WithChildStep(placed.children, j.parentIds, i, j.id);
        var p := j.parentIds[i];
        children := children[p := (if p in children then children[p] else {}) + {j.id}];
        i := i + 1;
      }
      assert j.parentIds[..i] == j.parentIds;
      return Ok(job);
    }

    /** Creates a job for a call and enqueues it (or defers it) in queue `origin`. */
    method Enqueue(id: JobId, now: Timestamp, origin: string, call: CallSpec, dependsOn: DependsOn,
                   ttl: Option<int>, resultTtl: Option<int>, description: Option<string>,
                   repr: Arg -> string)
      returns (job: Job)
      requires Valid(State())
      modifies this
      ensures var created := Create(id, now, origin, call, dependsOn, ttl, resultTtl, description, repr);
        && AfterEnqueueOrDefer(old(State()), created, now).Ok?
        && (job, State()) == (AfterEnqueueOrDefer(old(State()), created, now).value.1,
                              AfterEnqueueOrDefer(old(State()), created, now).value.0)
      ensures Valid(State())
    {
      var created := Create(id, now, origin, call, dependsOn, ttl, resultTtl, description, repr);
      var r := EnqueueOrDefer(created, now);
      job := r.value;
    }

    /**
     * Runs the job: stops its record expiring, resolves the references in
     * its arguments to the finished parents' results, applies `run`, and
     * saves the outcome. Returns the job as updated and the outcome.
     */
    method Perform(j: Job, now: Timestamp, run: CallSpec -> Outcome) returns (job: Job, r: Result<Outcome, JobError>)
      requires Valid(State())
      modifies this
      ensures (State(), job, r) == AfterPerform(old(State()), j, now, run)
      ensures Valid(State())
    {
      if j.id in records {
        expiry := expiry[j.id := NoExpiry];
      }
      job := j.(ttl := Some(-1));
      if j.callSpec.None? {
        return job, Err(EmptyJob);
      }
      var call := j.callSpec.value;
      var resolved := ResolveCall(call.args, call.kwargs, FinishedResults(State()));
      if resolved.Err? {
        return job, Err(DependencyNotResolved(resolved.error));
      }
      var outcome := run(CallSpec(call.funcName, call.instance, resolved.value.0, resolved.value.1));
      match outcome {
        case Returned(v) =>
          job := job.(result := Some(v), status := Some(Finished), endedAt := Some(now));
        case Raised(e) =>
          job := job.(excInfo := Some(e), status := Some(Failed), endedAt := Some(now));
      }
      var _ := Save(job);
      return job, Ok(outcome);
    }
  }
}
