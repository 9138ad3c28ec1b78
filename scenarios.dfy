/**
 * The behaviours the job tests check, each stated over an arbitrary store
 * (fresh ids, no stale entries) and derived from the general properties of
 * modules Jobs and Stores.
 */
module Scenarios {
  import opened Wrappers
  import opened Arguments
  import opened Jobs
  import opened Stores

  /** A call none of whose arguments refers to another job's result. */
  predicate Plain(call: CallSpec) {
    OccurrencesIn(call.args) == [] && OccurrencesInEntries(call.kwargs) == []
  }

  // ---------------------------------------------------------------------------
  // Saving, fetching and TTLs

  /**
   * A typical job stores exactly its creation time, call data, description
   * and origin; fetching it gives it back, and fetching an id without a
   * record fails.
   */
  lemma TypicalJobStored(s: State, id: JobId, now: Timestamp, origin: string, call: CallSpec,
                         repr: Arg -> string, missing: JobId)
    requires Valid(s) && Plain(call) && id !in s.records && missing !in s.records && missing != id
    ensures var j := Create(id, now, origin, call, NoDependency, None, None, None, repr);
      && AfterSave(s, j).Ok?
      && AfterSave(s, j).value.records[id].Keys == {CreatedAtField, DataField, DescriptionField, OriginField}
      && Fetch(AfterSave(s, j).value, id) == Ok(Truncated(j))
      && Fetch(AfterSave(s, j).value, missing) == Err(NoSuchJob)
  {
    var j := Create(id, now, origin, call, NoDependency, None, None, None, repr);
    SaveThenFetch(s, j);
    TypicalJobFields(id, now, origin, call, None, repr);
  }

  /** A job's dependency, given as the parent job or as its id, is stored and fetched as its first parent. */
  lemma ParentIsPersisted(s: State, id: JobId, now: Timestamp, origin: string, call: CallSpec,
                          repr: Arg -> string, parent: JobRef)
    requires Valid(s) && Plain(call) && id !in s.records
    ensures var j := Create(id, now, origin, call, One(parent), None, None, None, repr);
      && AfterSave(s, j).Ok?
      && Fetch(AfterSave(s, j).value, id).Ok?
      && Fetch(AfterSave(s, j).value, id).value.parentIds == [parent.id]
  {
    var j := Create(id, now, origin, call, One(parent), None, None, None, repr);
    ParentIdsDistinct(call.args, call.kwargs, One(parent));
    SaveThenFetch(s, j);
  }

  /**
   * A job's own TTL and result TTL win over the defaults given to the
   * getters, and both survive a save and a fetch.
   */
  lemma TtlsOfSavedJob(s: State, id: JobId, now: Timestamp, origin: string, call: CallSpec,
                       repr: Arg -> string, ttl: Option<int>, resultTtl: Option<int>, default: int)
    requires Valid(s) && id !in s.records && ttl != Some(0)
    ensures var j := Create(id, now, origin, call, NoDependency, ttl, resultTtl, None, repr);
      && GetTtl(j, None) == ttl
      && GetResultTtl(j, Some(default)) == (if resultTtl.Some? then resultTtl else Some(default))
      && GetResultTtl(j, None) == resultTtl
      && AfterSave(s, j).Ok?
      && Fetch(AfterSave(s, j).value, id).Ok?
      && GetTtl(Fetch(AfterSave(s, j).value, id).value, None) == ttl
      && GetResultTtl(Fetch(AfterSave(s, j).value, id).value, None) == resultTtl
  {
    var j := Create(id, now, origin, call, NoDependency, ttl, resultTtl, None, repr);
    SaveThenFetch(s, j);
  }

  /**
   * Cleaning up a saved job with TTL -1 makes its record permanent, with
   * TTL 100 makes it expire in 100 seconds, and with TTL 0 deletes it.
   */
  lemma CleanupSequence(s: State, j: Job)
    requires Valid(s) && j.callSpec.Some? && j.ttl.None? && j.id !in s.records
    ensures AfterSave(s, j).Ok?
    ensures var saved := AfterSave(s, j).value;
      var persisted := AfterCleanup(saved, j, Some(-1));
      var expiring := AfterCleanup(persisted, j, Some(100));
      var deleted := AfterCleanup(expiring, j, Some(0));
      && Valid(persisted) && TtlOf(persisted, j.id) == -1
      && Valid(expiring) && TtlOf(expiring, j.id) == 100
      && Fetch(deleted, j.id) == Err(NoSuchJob)
  {
    SaveThenFetch(s, j);
    var saved := AfterSave(s, j).value;
    CleanupPolicy(saved, j, -1);
    var persisted := AfterCleanup(saved, j, Some(-1));
    CleanupPolicy(persisted, j, 100);
    CleanupPolicy(AfterCleanup(persisted, j, Some(100)), j, 0);
  }

  // ---------------------------------------------------------------------------
  // Dependencies, deferral and deletion

  /** A list of dependencies mixing a job and a job id gives both as parents, in that order. */
  lemma MixedDependencyParents(call: CallSpec, p1: JobId, p2: JobId)
    requires Plain(call) && p1 != p2
    ensures ParentIds(call.args, call.kwargs, Several([JobInstance(p1), JobIdString(p2)])) == [p1, p2]
  {
    var d := Several([JobInstance(p1), JobIdString(p2)]);
    assert DependencyIds(d) == [p1, p2];
    ParentIdsDistinct(call.args, call.kwargs, d);
  }

  /**
   * Enqueueing a job whose first parent is unfinished defers it: it becomes
   * the only child of each of its two parents and the only deferred job of a
   * queue that had none; deleting it afterwards removes its record and its
   * children set.
   */
  lemma DeferUnderTwoParents(s: State, j: Job, now: Timestamp, p1: JobId, p2: JobId)
    requires Valid(s) && j.origin.Some? && j.callSpec.Some? && j.ttl != Some(0)
    requires j.parentIds == [p1, p2] && StatusOf(s, p1) != Some(Finished)
    requires ChildrenOf(s, p1) == {} && ChildrenOf(s, p2) == {} && DeferredIds(s, j.origin.value) == {}
    ensures AfterEnqueueOrDefer(s, j, now).Ok?
    ensures var (t, job) := AfterEnqueueOrDefer(s, j, now).value;
      && ChildrenOf(t, p1) == {j.id} && ChildrenOf(t, p2) == {j.id}
      && DeferredIds(t, j.origin.value) == {j.id}
      && j.id !in AfterDelete(t, job).records && j.id !in AfterDelete(t, job).children
  {
    assert !AllFinished(s, j.parentIds);
    EnqueueRegistersChildren(s, j, now);
    EnqueueWhenWaiting(s, j, now);
    var (t, job) := AfterEnqueueOrDefer(s, j, now).value;
    DeleteEffects(t, job);
  }

  /**
   * A job depending on a saved, unfinished job and on the id of another
   * saved job becomes the only child of each and the only deferred job of
   * queue "some_queue"; deleting it removes its record and its children set.
   */
  lemma RegisterDependency(s: State, p1: JobId, p2: JobId, id: JobId, now: Timestamp,
                           call: CallSpec, repr: Arg -> string)
    requires Valid(s) && Plain(call) && p1 != p2
    requires StatusOf(s, p1) != Some(Finished)
    requires ChildrenOf(s, p1) == {} && ChildrenOf(s, p2) == {} && DeferredIds(s, "some_queue") == {}
    ensures var j := Create(id, now, "some_queue", call, Several([JobInstance(p1), JobIdString(p2)]),
                            None, None, None, repr);
      && AfterEnqueueOrDefer(s, j, now).Ok?
      && var (t, job) := AfterEnqueueOrDefer(s, j, now).value;
         && ChildrenOf(t, p1) == {id} && ChildrenOf(t, p2) == {id}
         && DeferredIds(t, "some_queue") == {id}
         && id !in AfterDelete(t, job).records && id !in AfterDelete(t, job).children
  {
    MixedDependencyParents(call, p1, p2);
    var j := Create(id, now, "some_queue", call, Several([JobInstance(p1), JobIdString(p2)]),
                    None, None, None, repr);
    DeferUnderTwoParents(s, j, now, p1, p2);
  }

  /** Enqueueing a job without parents queues it at the tail of its queue, with status queued. */
  lemma QueueWithoutParents(s: State, j: Job, now: Timestamp)
    requires Valid(s) && j.origin.Some? && j.callSpec.Some? && j.ttl != Some(0) && j.parentIds == []
    ensures AfterEnqueueOrDefer(s, j, now).Ok?
    ensures var (t, job) := AfterEnqueueOrDefer(s, j, now).value;
      && Valid(t) && job.origin == j.origin && job.id == j.id
      && QueueIds(t, j.origin.value) == QueueIds(s, j.origin.value) + [j.id]
      && StatusOf(t, j.id) == Some(Queued)
      && t.records.Keys == s.records.Keys + {j.id}
      && (forall p :: ChildrenOf(t, p) == ChildrenOf(s, p))
  {
    assert AllFinished(s, j.parentIds);
    EnqueuedJob(s, j, now);
    EnqueueStores(s, j, now);
    EnqueueWhenReady(s, j, now);
    EnqueueRegistersChildren(s, j, now);
  }

  /**
   * Enqueueing a job whose only parent is queued defers it and makes it a
   * child of the parent; the queues do not change.
   */
  lemma DeferUnderQueued(s: State, j: Job, now: Timestamp, parent: JobId)
    requires Valid(s) && j.origin.Some? && j.callSpec.Some? && j.ttl != Some(0)
    requires j.parentIds == [parent] && StatusOf(s, parent) == Some(Queued)
    ensures AfterEnqueueOrDefer(s, j, now).Ok?
    ensures var (t, job) := AfterEnqueueOrDefer(s, j, now).value;
      && Valid(t) && job.status == Some(Deferred) && job.parentIds == [parent]
      && ChildrenOf(t, parent) == ChildrenOf(s, parent) + {j.id}
      && t.queues == s.queues
  {
    assert !AllFinished(s, j.parentIds);
    EnqueuedJob(s, j, now);
    EnqueueRegistersChildren(s, j, now);
    EnqueueWhenWaiting(s, j, now);
  }

  /**
   * A queued job with a deferred dependent: deleting the job removes its
   * record, its children set and its id from its queue.
   */
  lemma DeleteWithDependent(s: State, id1: JobId, id2: JobId, now: Timestamp, q: string,
                            call: CallSpec, repr: Arg -> string)
    requires Valid(s) && Plain(call) && id1 != id2
    ensures var j1 := Create(id1, now, q, call, NoDependency, None, None, None, repr);
      && AfterEnqueueOrDefer(s, j1, now).Ok?
      && var (s1, job1) := AfterEnqueueOrDefer(s, j1, now).value;
         var j2 := Create(id2, now, q, call, One(JobInstance(id1)), None, None, None, repr);
         && AfterEnqueueOrDefer(s1, j2, now).Ok?
         && var (s2, job2) := AfterEnqueueOrDefer(s1, j2, now).value;
            && QueueIds(s1, q) == QueueIds(s, q) + [id1]
            && id2 in ChildrenOf(s2, id1)
            && job2.status == Some(Deferred)
            && id1 !in AfterDelete(s2, job1).records
            && id1 !in AfterDelete(s2, job1).children
            && id1 !in QueueIds(AfterDelete(s2, job1), q)
  {
    var j1 := Create(id1, now, q, call, NoDependency, None, None, None, repr);
    ParentIdsDistinct(call.args, call.kwargs, NoDependency);
    QueueWithoutParents(s, j1, now);
    var (s1, job1) := AfterEnqueueOrDefer(s, j1, now).value;
    var j2 := Create(id2, now, q, call, One(JobInstance(id1)), None, None, None, repr);
    ParentIdsDistinct(call.args, call.kwargs, One(JobInstance(id1)));
    DeferUnderQueued(s1, j2, now, id1);
    var (s2, job2) := AfterEnqueueOrDefer(s1, j2, now).value;
    DeleteEffects(s2, job1);
  }

  // ---------------------------------------------------------------------------
  // Future results as arguments

  /** A call of `fibonacci_step(two_back=…, one_back=…)`. */
  function FibonacciCall(twoBack: Arg, oneBack: Arg): CallSpec {
    CallSpec("tests.fixtures.fibonacci_step", None, [], [Entry("two_back", twoBack), Entry("one_back", oneBack)])
  }

  /** A call of `n_back_sum(values)`. */
  function NBackSumCall(values: seq<Arg>): CallSpec {
    CallSpec("tests.fixtures.n_back_sum", None, [List(values)], [])
  }

  /** Enqueueing a job registers it with each of its parents, so a parent's children grow by it. */
  lemma ChildOfEach(s: State, j: Job, now: Timestamp, p: JobId)
    requires Valid(s) && j.origin.Some? && j.callSpec.Some? && j.ttl != Some(0)
    ensures AfterEnqueueOrDefer(s, j, now).Ok?
    ensures var (t, job) := AfterEnqueueOrDefer(s, j, now).value;
      && Valid(t) && job.parentIds == j.parentIds
      && ChildrenOf(t, p) == ChildrenOf(s, p) + (if p in j.parentIds then {j.id} else {})
  {
    EnqueuedJob(s, j, now);
    EnqueueRegistersChildren(s, j, now);
  }

  /** A step on two integers has no parents; a step on a future result has that result's job as parent. */
  lemma FibonacciParents(a: int, b: int, parent: JobId)
    ensures var c := FibonacciCall(Concrete(IntValue(a)), Concrete(IntValue(b)));
      ParentIds(c.args, c.kwargs, NoDependency) == []
    ensures var c := FibonacciCall(Concrete(IntValue(b)), Future(parent));
      ParentIds(c.args, c.kwargs, NoDependency) == [parent]
  {
    var c1 := FibonacciCall(Concrete(IntValue(a)), Concrete(IntValue(b)));
    assert OccurrencesInEntries(c1.kwargs[1..]) == [];
    ParentIdsDistinct(c1.args, c1.kwargs, NoDependency);
    var c2 := FibonacciCall(Concrete(IntValue(b)), Future(parent));
    assert OccurrencesInEntries(c2.kwargs[1..]) == [parent];
    ParentIdsDistinct(c2.args, c2.kwargs, NoDependency);
  }

  /** The jobs `j1`, `j2`, … can be enqueued: each names its queue, has a call and is not deleted on save. */
  predicate Enqueueable(j: Job) {
    j.origin.Some? && j.callSpec.Some? && j.ttl != Some(0)
  }

  /** Enqueueing a job without parents, then a job whose only parent is the first, makes it the first one's child. */
  lemma ChildAfterTwo(s: State, j1: Job, j2: Job, now: Timestamp, s1: State, job1: Job, s2: State, job2: Job)
    requires Valid(s) && Enqueueable(j1) && Enqueueable(j2) && j1.id !in s.children
    requires j1.parentIds == [] && j2.parentIds == [j1.id]
    requires AfterEnqueueOrDefer(s, j1, now) == Ok((s1, job1))
    requires AfterEnqueueOrDefer(s1, j2, now) == Ok((s2, job2))
    ensures job2.parentIds == [j1.id]
    ensures ChildrenOf(s2, j1.id) == {j2.id}
  {
    ChildOfEach(s, j1, now, j1.id);
    ChildOfEach(s1, j2, now, j1.id);
  }

  /**
   * Passing a job's future result as a keyword argument makes that job the
   * new job's only parent, and the new job its only child.
   */
  lemma FutureResultAddsDependency(s: State, id1: JobId, id2: JobId, now: Timestamp, q: string,
                                   a: int, b: int, description: Option<string>, repr: Arg -> string)
    requires Valid(s) && id1 !in s.children
    ensures var step1 := Create(id1, now, q, FibonacciCall(Concrete(IntValue(a)), Concrete(IntValue(b))),
                                NoDependency, None, None, description, repr);
      && AfterEnqueueOrDefer(s, step1, now).Ok?
      && var s1 := AfterEnqueueOrDefer(s, step1, now).value.0;
         var step2 := Create(id2, now, q, FibonacciCall(Concrete(IntValue(b)), Future(id1)),
                             NoDependency, None, None, description, repr);
         && AfterEnqueueOrDefer(s1, step2, now).Ok?
         && var s2 := AfterEnqueueOrDefer(s1, step2, now).value.0;
            var job2 := AfterEnqueueOrDefer(s1, step2, now).value.1;
            && job2.parentIds == [id1]
            && ChildrenOf(s2, id1) == {id2}
  {
    FibonacciParents(a, b, id1);
    var step1 := Create(id1, now, q, FibonacciCall(Concrete(IntValue(a)), Concrete(IntValue(b))),
                        NoDependency, None, None, description, repr);
    var step2 := Create(id2, now, q, FibonacciCall(Concrete(IntValue(b)), Future(id1)),
                        NoDependency, None, None, description, repr);
    EnqueuedJob(s, step1, now);
    var (s1, job1) := AfterEnqueueOrDefer(s, step1, now).value;
    EnqueueRegistersChildren(s, step1, now);
    EnqueuedJob(s1, step2, now);
    var (s2, job2) := AfterEnqueueOrDefer(s1, step2, now).value;
    EnqueueRegistersChildren(s1, step2, now);
    ChildAfterTwo(s, step1, step2, now, s1, job1, s2, job2);
  }

  /** The future results of the jobs `ids`, as a list of arguments. */
  function Futures(ids: seq<JobId>): seq<Arg> {
    if ids == [] then [] else [Future(ids[0])] + Futures(ids[1..])
  }

  lemma {:induction false} FuturesOccurrences(ids: seq<JobId>)
    ensures OccurrencesIn(Futures(ids)) == ids
  {
    if ids != [] {
      FuturesOccurrences(ids[1..]);
      assert ([Future(ids[0])] + Futures(ids[1..]))[1..] == Futures(ids[1..]);
      assert ids == [ids[0]] + ids[1..];
    }
  }

  /** The parents of `n_back_sum([the future results of ids])` are `ids`, when they are distinct. */
  lemma NBackSumParents(ids: seq<JobId>)
    requires NoDuplicates(ids)
    ensures ParentIds(NBackSumCall(Futures(ids)).args, [], NoDependency) == ids
  {
    FuturesOccurrences(ids);
    assert OccurrencesIn([List(Futures(ids))]) == ids by {
      assert OccurrencesIn([List(Futures(ids))][1..]) == [];
    }
    assert OccurrencesIn([List(Futures(ids))]) + OccurrencesInEntries([]) + DependencyIds(NoDependency) == ids;
    ParentIdsDistinct([List(Futures(ids))], [], NoDependency);
  }

  /**
   * Enqueueing a job without parents, then one whose parent is the first,
   * then one whose parents are the first two, makes the first job's children
   * the two later jobs.
   */
  lemma ChildrenAfterThree(s: State, j1: Job, j2: Job, j3: Job, now: Timestamp,
                           s1: State, job1: Job, s2: State, job2: Job, s3: State, job3: Job)
    requires Valid(s) && Enqueueable(j1) && Enqueueable(j2) && Enqueueable(j3) && j1.id !in s.children
    requires j1.parentIds == [] && j2.parentIds == [j1.id] && j3.parentIds == [j1.id, j2.id]
    requires AfterEnqueueOrDefer(s, j1, now) == Ok((s1, job1))
    requires AfterEnqueueOrDefer(s1, j2, now) == Ok((s2, job2))
    requires AfterEnqueueOrDefer(s2, j3, now) == Ok((s3, job3))
    ensures job2.parentIds == [j1.id] && job3.parentIds == [j1.id, j2.id]
    ensures ChildrenOf(s3, j1.id) == {j2.id, j3.id}
  {
    ChildOfEach(s, j1, now, j1.id);
    ChildOfEach(s1, j2, now, j1.id);
    ChildOfEach(s2, j3, now, j1.id);
  }

  /**
   * Future results inside a list argument count as well: each job's parents
   * are the referenced jobs in the order written, and the first job gains
   * both later jobs as children.
   */
  lemma FutureResultInListAddsDependency(s: State, id1: JobId, id2: JobId, id3: JobId, now: Timestamp,
                                         q: string, description: Option<string>, repr: Arg -> string)
    requires Valid(s) && id1 != id2 && id1 !in s.children
    ensures var step1 := Create(id1, now, q, NBackSumCall(Futures([])), NoDependency, None, None, description, repr);
      && AfterEnqueueOrDefer(s, step1, now).Ok?
      && var s1 := AfterEnqueueOrDefer(s, step1, now).value.0;
         var step2 := Create(id2, now, q, NBackSumCall(Futures([id1])), NoDependency, None, None, description, repr);
         && AfterEnqueueOrDefer(s1, step2, now).Ok?
         && var s2 := AfterEnqueueOrDefer(s1, step2, now).value.0;
            var job2 := AfterEnqueueOrDefer(s1, step2, now).value.1;
            var step3 := Create(id3, now, q, NBackSumCall(Futures([id1, id2])),
                                NoDependency, None, None, description, repr);
            && AfterEnqueueOrDefer(s2, step3, now).Ok?
            && var s3 := AfterEnqueueOrDefer(s2, step3, now).value.0;
               var job3 := AfterEnqueueOrDefer(s2, step3, now).value.1;
               && job2.parentIds == [id1]
               && job3.parentIds == [id1, id2]
               && ChildrenOf(s3, id1) == {id2, id3}
  {
    NBackSumParents([]);
    NBackSumParents([id1]);
    NBackSumParents([id1, id2]);
    var step1 := Create(id1, now, q, NBackSumCall(Futures([])), NoDependency, None, None, description, repr);
    var step2 := Create(id2, now, q, NBackSumCall(Futures([id1])), NoDependency, None, None, description, repr);
    var step3 := Create(id3, now, q, NBackSumCall(Futures([id1, id2])), NoDependency, None, None, description, repr);
    EnqueuedJob(s, step1, now);
    var (s1, job1) := AfterEnqueueOrDefer(s, step1, now).value;
    EnqueueRegistersChildren(s, step1, now);
    EnqueuedJob(s1, step2, now);
    var (s2, job2) := AfterEnqueueOrDefer(s1, step2, now).value;
    EnqueueRegistersChildren(s1, step2, now);
    EnqueuedJob(s2, step3, now);
    var (s3, job3) := AfterEnqueueOrDefer(s2, step3, now).value;
    ChildrenAfterThree(s, step1, step2, step3, now, s1, job1, s2, job2, s3, job3);
  }

  // ---------------------------------------------------------------------------
  // Performing

  /** The value of the first keyword argument named `name`, when it is a concrete integer. */
  function IntKwarg(kwargs: seq<Entry>, name: string): Option<int> {
    if kwargs == [] then None
    else if kwargs[0].key == name then
      (if kwargs[0].val.Concrete? && kwargs[0].val.v.IntValue? then Some(kwargs[0].val.v.i) else None)
    else IntKwarg(kwargs[1..], name)
  }

  /** `fibonacci_step(two_back, one_back)` returns the sum of its two arguments. */
  function FibonacciStep(call: CallSpec): Outcome {
    var twoBack := IntKwarg(call.kwargs, "two_back");
    var oneBack := IntKwarg(call.kwargs, "one_back");
    if twoBack.Some? && oneBack.Some? then Returned(IntValue(twoBack.value + oneBack.value))
    else Raised("TypeError")
  }

  /** A step given two integers returns their sum. */
  lemma FibonacciStepSums(a: int, b: int)
    ensures FibonacciStep(FibonacciCall(Concrete(IntValue(a)), Concrete(IntValue(b)))) == Returned(IntValue(a + b))
  {
    var kw := FibonacciCall(Concrete(IntValue(a)), Concrete(IntValue(b))).kwargs;
    assert "two_back" != "one_back" by {
      assert "two_back"[0] != "one_back"[0];
    }
    assert kw[1..] == [Entry("one_back", Concrete(IntValue(b)))] && kw[1..][1..] == [];
    assert IntKwarg(kw, "two_back") == Some(a);
    assert IntKwarg(kw, "one_back") == Some(b);
  }

  /**
   * A job enqueued with a TTL of one second reports that TTL, and its record
   * expires in one second, also after saving it again; once performed, its
   * TTL is -1, its record still exists and never expires, and the outcome is
   * the function's on the unchanged call.
   */
  lemma NeverExpireDuringExecution(s: State, id: JobId, now: Timestamp, later: Timestamp, q: string,
                                   call: CallSpec, repr: Arg -> string, run: CallSpec -> Outcome)
    requires Valid(s) && Plain(call)
    ensures var j := Create(id, now, q, call, NoDependency, Some(1), None, None, repr);
      && AfterEnqueueOrDefer(s, j, now).Ok?
      && var s1 := AfterEnqueueOrDefer(s, j, now).value.0;
         var job := AfterEnqueueOrDefer(s, j, now).value.1;
         && GetTtl(job, None) == Some(1)
         && AfterSave(s1, job).Ok?
         && var saved := AfterSave(s1, job).value;
            && Valid(saved) && TtlOf(saved, id) == 1
            && var (s2, performed, r) := AfterPerform(saved, job, later, run);
               && GetTtl(performed, None) == Some(-1)
               && id in s2.records && Valid(s2) && TtlOf(s2, id) == -1
               && r == Ok(run(call))
  {
    var j := Create(id, now, q, call, NoDependency, Some(1), None, None, repr);
    EnqueuedJob(s, j, now);
    EnqueueStores(s, j, now);
    var (s1, job) := AfterEnqueueOrDefer(s, j, now).value;
    SaveEffects(s1, job);
    var saved := AfterSave(s1, job).value;
    PerformPersists(saved, job, later, run);
    ResolveCallWithoutFutures(call.args, call.kwargs, FinishedResults(saved));
    PerformRunsResolvedCall(saved, job, later, run, call.args, call.kwargs);
  }

  /** The function run by the Fibonacci scenario returns the sums the steps need. */
  predicate SumsSteps(run: CallSpec -> Outcome, a: int, b: int) {
    && run(FibonacciCall(Concrete(IntValue(a)), Concrete(IntValue(b)))) == Returned(IntValue(a + b))
    && run(FibonacciCall(Concrete(IntValue(b)), Concrete(IntValue(a + b)))) == Returned(IntValue(b + (a + b)))
  }

  lemma FibonacciStepSumsSteps(a: int, b: int)
    ensures SumsSteps(FibonacciStep, a, b)
  {
    FibonacciStepSums(a, b);
    FibonacciStepSums(b, a + b);
  }

  /** Performing a stored Fibonacci step without references stores and returns the sum. */
  lemma PerformFirstStep(s: State, j: Job, now: Timestamp, a: int, b: int, run: CallSpec -> Outcome)
    requires Valid(s) && j.id in s.records && SumsSteps(run, a, b)
    requires j.callSpec == Some(FibonacciCall(Concrete(IntValue(a)), Concrete(IntValue(b))))
    ensures var (t, _, r) := AfterPerform(s, j, now, run);
      && r == Ok(Returned(IntValue(a + b)))
      && Valid(t) && t.records.Keys == s.records.Keys
      && StatusOf(t, j.id) == Some(Finished) && ResultAt(t.records[j.id]) == Some(IntValue(a + b))
  {
    var c := j.callSpec.value;
    assert OccurrencesInEntries(c.kwargs[1..]) == [];
    ResolveCallWithoutFutures(c.args, c.kwargs, FinishedResults(s));
    PerformRunsResolvedCall(s, j, now, run, c.args, c.kwargs);
    PerformPersists(s, j, now, run);
    PerformOutcome(s, j, now, run);
  }

  /** Performing a Fibonacci step whose `one_back` refers to a finished step uses that step's result. */
  lemma PerformSecondStep(s: State, j: Job, now: Timestamp, a: int, b: int, parent: JobId, run: CallSpec -> Outcome)
    requires Valid(s) && j.id in s.records && parent in s.records && SumsSteps(run, a, b)
    requires StatusOf(s, parent) == Some(Finished) && ResultAt(s.records[parent]) == Some(IntValue(a + b))
    requires j.callSpec == Some(FibonacciCall(Concrete(IntValue(b)), Future(parent)))
    ensures AfterPerform(s, j, now, run).2 == Ok(Returned(IntValue(b + (a + b))))
  {
    var c := j.callSpec.value;
    var results := FinishedResults(s);
    var v := a + b;
    assert results[parent] == IntValue(v);
    var resolved := FibonacciCall(Concrete(IntValue(b)), Concrete(IntValue(v)));
    var rest := c.kwargs[1..];
    assert rest == [Entry("one_back", Future(parent))] && rest[1..] == [];
    assert Resolve(Future(parent), results) == Ok(Concrete(IntValue(v)));
    assert ResolveInEntries(rest[1..], results) == Ok([]);
    assert [Entry("one_back", Concrete(IntValue(v)))] + [] == resolved.kwargs[1..];
    assert ResolveInEntries(rest, results) == Ok(resolved.kwargs[1..]);
    assert Resolve(Concrete(IntValue(b)), results) == Ok(Concrete(IntValue(b)));
    assert c.kwargs[1..] == rest;
    assert [Entry("two_back", Concrete(IntValue(b)))] + resolved.kwargs[1..] == resolved.kwargs;
    assert ResolveInEntries(c.kwargs, results) == Ok(resolved.kwargs);
    assert ResolveCall(c.args, c.kwargs, results) == Ok((resolved.args, resolved.kwargs));
    PerformRunsResolvedCall(s, j, now, run, resolved.args, resolved.kwargs);
  }

  /** Enqueueing two jobs stores both and keeps their ids and calls. */
  lemma TwoEnqueuedStored(s: State, j1: Job, j2: Job, now: Timestamp, s1: State, job1: Job, s2: State, job2: Job)
    requires Valid(s) && Enqueueable(j1) && Enqueueable(j2)
    requires AfterEnqueueOrDefer(s, j1, now) == Ok((s1, job1))
    requires AfterEnqueueOrDefer(s1, j2, now) == Ok((s2, job2))
    ensures Valid(s2) && j1.id in s2.records && j2.id in s2.records
    ensures job1.id == j1.id && job1.callSpec == j1.callSpec
    ensures job2.id == j2.id && job2.callSpec == j2.callSpec
  {
    EnqueuedJob(s, j1, now);
    EnqueueStores(s, j1, now);
    EnqueuedJob(s1, j2, now);
    EnqueueStores(s1, j2, now);
  }

  /**
   * Two stored Fibonacci steps, the second referring to the first's result:
   * performing the first returns a + b, performing the second after it
   * returns b + (a + b).
   */
  lemma PerformTwoSteps(s: State, j1: Job, j2: Job, t1: Timestamp, t2: Timestamp, a: int, b: int,
                        run: CallSpec -> Outcome)
    requires Valid(s) && j1.id in s.records && j2.id in s.records && SumsSteps(run, a, b)
    requires j1.callSpec == Some(FibonacciCall(Concrete(IntValue(a)), Concrete(IntValue(b))))
    requires j2.callSpec == Some(FibonacciCall(Concrete(IntValue(b)), Future(j1.id)))
    ensures AfterPerform(s, j1, t1, run).2 == Ok(Returned(IntValue(a + b)))
    ensures AfterPerform(AfterPerform(s, j1, t1, run).0, j2, t2, run).2 == Ok(Returned(IntValue(b + (a + b))))
  {
    PerformFirstStep(s, j1, t1, a, b, run);
    PerformSecondStep(AfterPerform(s, j1, t1, run).0, j2, t2, a, b, j1.id, run);
  }

  /**
   * Two chained Fibonacci steps: the first returns a + b; the second, whose
   * `one_back` is the first one's future result, performed after it, returns
   * b + (a + b). With a = 0 and b = 1 these are 1 and 2.
   */
  lemma FutureResultResolvesWhenPerformed(s: State, id1: JobId, id2: JobId, now: Timestamp,
                                          t1: Timestamp, t2: Timestamp, q: string, a: int, b: int,
                                          description: Option<string>, repr: Arg -> string)
    requires Valid(s) && id1 != id2
    ensures var step1 := Create(id1, now, q, FibonacciCall(Concrete(IntValue(a)), Concrete(IntValue(b))),
                                NoDependency, None, None, description, repr);
      && AfterEnqueueOrDefer(s, step1, now).Ok?
      && var s1 := AfterEnqueueOrDefer(s, step1, now).value.0;
         var job1 := AfterEnqueueOrDefer(s, step1, now).value.1;
         var step2 := Create(id2, now, q, FibonacciCall(Concrete(IntValue(b)), Future(id1)),
                             NoDependency, None, None, description, repr);
         && AfterEnqueueOrDefer(s1, step2, now).Ok?
         && var s2 := AfterEnqueueOrDefer(s1, step2, now).value.0;
            var job2 := AfterEnqueueOrDefer(s1, step2, now).value.1;
            && AfterPerform(s2, job1, t1, FibonacciStep).2 == Ok(Returned(IntValue(a + b)))
            && AfterPerform(AfterPerform(s2, job1, t1, FibonacciStep).0, job2, t2, FibonacciStep).2
               == Ok(Returned(IntValue(b + (a + b))))
  {
    var step1 := Create(id1, now, q, FibonacciCall(Concrete(IntValue(a)), Concrete(IntValue(b))),
                        NoDependency, None, None, description, repr);
    var step2 := Create(id2, now, q, FibonacciCall(Concrete(IntValue(b)), Future(id1)),
                        NoDependency, None, None, description, repr);
    EnqueuedJob(s, step1, now);
    var (s1, job1) := AfterEnqueueOrDefer(s, step1, now).value;
    EnqueueStores(s, step1, now);
    EnqueuedJob(s1, step2, now);
    var (s2, job2) := AfterEnqueueOrDefer(s1, step2, now).value;
    EnqueueStores(s1, step2, now);
    TwoEnqueuedStored(s, step1, step2, now, s1, job1, s2, job2);
    FibonacciStepSumsSteps(a, b);
    PerformTwoSteps(s2, job1, job2, t1, t2, a, b, FibonacciStep);
  }
}
