/**
 * The key-value store a job lives in, as a value, and what each job
 * operation does to it.
 *
 * The store holds, per job, its record (`job:<id>`, a hash of fields) and
 * the record's expiry, and the set of the job's children (`job:<id>:children`);
 * per queue, the ordered list of runnable job ids (`queue:<name>`) and the
 * set of deferred job ids (`deferred:<name>`). An absent key reads as an
 * empty list or set.
 */
module Stores {
  import opened Wrappers
  import opened Arguments
  import opened Jobs

  /** The expiry of a job's record. */
  datatype Expiry = NoExpiry | ExpiresIn(seconds: nat)

  datatype State = State(
    records: map<JobId, Record>,
    expiry: map<JobId, Expiry>,
    children: map<JobId, set<JobId>>,
    queues: map<string, seq<JobId>>,
    deferred: map<string, set<JobId>>)

  /** Every record, and only a record, has an expiry entry. */
  predicate Valid(s: State) {
    s.expiry.Keys == s.records.Keys
  }

  const EmptyStore: State := State(map[], map[], map[], map[], map[])

  // ---------------------------------------------------------------------------
  // Queries

  /**
   * The remaining time to live the store reports for a job's record: -2
   * when there is no record, -1 when the record does not expire.
   */
  function TtlOf(s: State, id: JobId): int
    requires Valid(s)
  {
    if id !in s.records then -2
    else match s.expiry[id]
      case NoExpiry => -1
      case ExpiresIn(n) => n
  }

  /** Fetching a job by id: there must be a record, and it must describe a job. */
  function Fetch(s: State, id: JobId): Result<Job, JobError> {
    if id !in s.records then Err(NoSuchJob) else Load(id, s.records[id])
  }

  function ChildrenOf(s: State, id: JobId): set<JobId> {
    if id in s.children then s.children[id] else {}
  }

  function QueueIds(s: State, name: string): seq<JobId> {
    if name in s.queues then s.queues[name] else []
  }

  function DeferredIds(s: State, name: string): set<JobId> {
    if name in s.deferred then s.deferred[name] else {}
  }

  function StatusOf(s: State, id: JobId): Option<Status> {
    if id in s.records then StatusAt(s.records[id]) else None
  }

  predicate AllFinished(s: State, ids: seq<JobId>) {
    forall p :: p in ids ==> StatusOf(s, p) == Some(Finished)
  }

  /** The stored results of the finished jobs (a finished job without a stored result returned None). */
  function FinishedResults(s: State): map<JobId, Value> {
    map id | id in s.records && StatusAt(s.records[id]) == Some(Finished) :: ResultAt(s.records[id]).GetOr(NoneValue)
  }

  // ---------------------------------------------------------------------------
  // Operations

  /** `s` with every occurrence of `x` removed, the rest in order (a list removal of all matches). */
  function RemoveAll(s: seq<JobId>, x: JobId): (r: seq<JobId>)
    ensures x !in r
    ensures multiset(r) == multiset(s)[x := 0]
  {
    if s == [] then []
    else
      assert s == [s[0]] + s[1..];
      if s[0] == x then RemoveAll(s[1..], x) else [s[0]] + RemoveAll(s[1..], x)
  }

  /** Deleting a job: its record and its children set go, and its id leaves its origin queue. */
  function AfterDelete(s: State, j: Job): State {
    var queues :=
      if j.origin.Some? && j.origin.value in s.queues
      then s.queues[j.origin.value := RemoveAll(s.queues[j.origin.value], j.id)]
      else s.queues;
    s.(records := s.records - {j.id}, expiry := s.expiry - {j.id}, children := s.children - {j.id},
       queues := queues)
  }

  /**
   * The expiry policy: no TTL changes nothing, zero deletes the job, a
   * positive TTL makes the record expire in that many seconds, and a
   * negative one makes it never expire.
   */
  function AfterCleanup(s: State, j: Job, ttl: Option<int>): State {
    if ttl.None? then s
    else if ttl.value == 0 then AfterDelete(s, j)
    else if j.id !in s.records then s
    else if ttl.value > 0 then s.(expiry := s.expiry[j.id := ExpiresIn(ttl.value)])
    else s.(expiry := s.expiry[j.id := NoExpiry])
  }

  /**
   * Saving a job writes every attribute it has into its record (fields the
   * record holds already and the job does not set are kept), then applies the
   * job's own TTL. A job without a call cannot be saved.
   */
  function AfterSave(s: State, j: Job): Result<State, JobError> {
    if j.callSpec.None? then Err(EmptyJob)
    else
      var existed := j.id in s.records;
      var rec := (if existed then s.records[j.id] else map[]) + Dump(j);
      var written := s.(records := s.records[j.id := rec],
                        expiry := if existed then s.expiry else s.expiry[j.id := NoExpiry]);
      Ok(AfterCleanup(written, j, j.ttl))
  }

  /** The children sets once `child` is registered with each of `parents`. */
  function WithChild(children: map<JobId, set<JobId>>, parents: seq<JobId>, child: JobId): map<JobId, set<JobId>> {
    map p | p in children.Keys + (set x | x in parents) ::
      (if p in children then children[p] else {}) + (if p in parents then {child} else {})
  }

  /**
   * Enqueueing a created job: if every parent is finished the job is queued
   * at the tail of its origin queue, otherwise it is deferred in that queue's
   * deferred set; either way it is saved, and registered as a child of each
   * of its parents.
   */
  function AfterEnqueueOrDefer(s: State, j: Job, now: Timestamp): Result<(State, Job), JobError>
    requires j.origin.Some?
  {
    if j.callSpec.None? then Err(EmptyJob)
    else
      var q := j.origin.value;
      var ready := AllFinished(s, j.parentIds);
      var job := if ready then j.(status := Some(Queued), enqueuedAt := Some(now))
                 else j.(status := Some(Deferred));
      var saved := AfterSave(s, job).value;
      var placed :=
        if ready then saved.(queues := saved.queues[q := QueueIds(saved, q) + [j.id]])
        else saved.(deferred := saved.deferred[q := DeferredIds(saved, q) + {j.id}]);
      Ok((placed.(children := WithChild(placed.children, j.parentIds, j.id)), job))
  }

  /** What running the job's function did: returned a value or raised. */
  datatype Outcome = Returned(value: Value) | Raised(excInfo: string)

  /**
   * Performing a job: its record stops expiring and its TTL becomes -1;
   * every reference in its arguments is replaced by the referenced finished
   * job's result (failing on the first reference to an unfinished job); the
   * function `run` is applied to the resolved call, and the outcome, the new
   * status and the end time are saved.
   */
  function AfterPerform(s: State, j: Job, now: Timestamp, run: CallSpec -> Outcome)
    : (State, Job, Result<Outcome, JobError>)
  {
    var persisted := if j.id in s.records then s.(expiry := s.expiry[j.id := NoExpiry]) else s;
    var started := j.(ttl := Some(-1));
    if j.callSpec.None? then (persisted, started, Err(EmptyJob))
    else
      var call := j.callSpec.value;
      match ResolveCall(call.args, call.kwargs, FinishedResults(persisted))
      case Err(p) => (persisted, started, Err(DependencyNotResolved(p)))
      case Ok(resolved) =>
        var outcome := run(CallSpec(call.funcName, call.instance, resolved.0, resolved.1));
        var ended :=
          match outcome
          case Returned(v) => started.(result := Some(v), status := Some(Finished), endedAt := Some(now))
          case Raised(e) => started.(excInfo := Some(e), status := Some(Failed), endedAt := Some(now));
        (AfterSave(persisted, ended).value, ended, Ok(outcome))
  }

  // ---------------------------------------------------------------------------
  // Properties of the list removal

  lemma {:induction false} RemoveAllAbsent(s: seq<JobId>, x: JobId)
    requires x !in s
    ensures RemoveAll(s, x) == s
  {
    if s != [] {
      RemoveAllAbsent(s[1..], x);
      assert s == [s[0]] + s[1..];
    }
  }

  /** Removal keeps the other ids in their order: it distributes over concatenation. */
  lemma {:induction false} RemoveAllConcat(a: seq<JobId>, b: seq<JobId>, x: JobId)
    ensures RemoveAll(a + b, x) == RemoveAll(a, x) + RemoveAll(b, x)
  {
    if a == [] {
      assert a + b == b;
    } else {
      assert (a + b)[0] == a[0] && (a + b)[1..] == a[1..] + b;
      RemoveAllConcat(a[1..], b, x);
    }
  }

  // ---------------------------------------------------------------------------
  // Frames

  /** Two stores whose expiries agree away from `x` report the same TTL for every other id. */
  lemma TtlFrame(s: State, t: State, x: JobId)
    requires Valid(s) && Valid(t)
    requires t.expiry - {x} == s.expiry - {x}
    ensures forall id :: id != x ==> TtlOf(t, id) == TtlOf(s, id)
  {
    forall id | id != x
      ensures TtlOf(t, id) == TtlOf(s, id)
    {
      assert id in t.expiry <==> id in t.expiry - {x};
      assert id in s.expiry <==> id in s.expiry - {x};
      if id in s.expiry {
        assert t.expiry[id] == (t.expiry - {x})[id];
      }
    }
  }

  /** Cleaning up a job changes no expiry but the job's own. */
  lemma CleanupExpiryFrame(s: State, j: Job, ttl: Option<int>)
    ensures AfterCleanup(s, j, ttl).expiry - {j.id} == s.expiry - {j.id}
  {
    if ttl.Some? && ttl.value != 0 && j.id in s.records {
      var e := AfterCleanup(s, j, ttl).expiry;
      assert e == s.expiry[j.id := e[j.id]];
      assert s.expiry[j.id := e[j.id]] - {j.id} == s.expiry - {j.id};
    }
  }

  /** Saving a job changes no expiry but the job's own. */
  lemma SaveExpiryFrame(s: State, j: Job)
    requires j.callSpec.Some?
    ensures AfterSave(s, j).Ok?
    ensures AfterSave(s, j).value.expiry - {j.id} == s.expiry - {j.id}
  {
    var existed := j.id in s.records;
    var rec := (if existed then s.records[j.id] else map[]) + Dump(j);
    var written := s.(records := s.records[j.id := rec],
                      expiry := if existed then s.expiry else s.expiry[j.id := NoExpiry]);
    assert written.expiry - {j.id} == s.expiry - {j.id};
    CleanupExpiryFrame(written, j, j.ttl);
  }

  // ---------------------------------------------------------------------------
  // Cleanup and delete

  /**
   * After cleanup with a negative TTL the record is kept and never expires;
   * with a positive TTL it is kept and expires in exactly that many seconds;
   * with zero it is gone and fetching it fails, as deletion does. No other
   * job's expiry changes, and a non-zero TTL changes nothing but the expiry.
   */
  lemma CleanupPolicy(s: State, j: Job, ttl: int)
    requires Valid(s) && j.id in s.records
    ensures Valid(AfterCleanup(s, j, Some(ttl)))
    ensures var t := AfterCleanup(s, j, Some(ttl));
      && (ttl < 0 ==> t.records == s.records && TtlOf(t, j.id) == -1)
      && (ttl > 0 ==> t.records == s.records && TtlOf(t, j.id) == ttl)
      && (ttl != 0 ==> t.children == s.children && t.queues == s.queues && t.deferred == s.deferred)
      && (ttl == 0 ==> Fetch(t, j.id) == Err(NoSuchJob) && TtlOf(t, j.id) == -2 && t == AfterDelete(s, j))
      && (forall id :: id != j.id ==> TtlOf(t, id) == TtlOf(s, id))
  {
  }

  /** Cleanup without a TTL leaves the store as it was. */
  lemma CleanupWithoutTtl(s: State, j: Job)
    ensures AfterCleanup(s, j, None) == s
  {
  }

  /**
   * Deleting removes the record, its expiry and the children set, and the id
   * from the origin queue; every other record, expiry, children set, queue
   * and deferred set is left alone.
   */
  lemma DeleteEffects(s: State, j: Job)
    requires Valid(s)
    ensures var d := AfterDelete(s, j);
      && Valid(d)
      && j.id !in d.records && j.id !in d.children
      && (forall id :: id != j.id && id in s.records ==> id in d.records && d.records[id] == s.records[id])
      && (forall id :: id != j.id ==> ChildrenOf(d, id) == ChildrenOf(s, id))
      && (forall id :: id != j.id ==> TtlOf(d, id) == TtlOf(s, id))
      && (j.origin.Some? ==>
            QueueIds(d, j.origin.value) == RemoveAll(QueueIds(s, j.origin.value), j.id)
            && j.id !in QueueIds(d, j.origin.value)
            && multiset(QueueIds(d, j.origin.value)) == multiset(QueueIds(s, j.origin.value))[j.id := 0])
      && (forall q :: j.origin != Some(q) ==> QueueIds(d, q) == QueueIds(s, q))
      && d.deferred == s.deferred
  {
  }

  /** Deleting twice is deleting once. */
  lemma DeleteIdempotent(s: State, j: Job)
    ensures AfterDelete(AfterDelete(s, j), j) == AfterDelete(s, j)
  {
    var d := AfterDelete(s, j);
    var d2 := AfterDelete(d, j);
    assert d2.records == d.records;
    assert d2.expiry == d.expiry;
    assert d2.children == d.children;
    if j.origin.Some? && j.origin.value in s.queues {
      RemoveAllAbsent(d.queues[j.origin.value], j.id);
      assert d2.queues == d.queues;
    }
  }

  /** Applying the same cleanup twice leaves the store as one application does. */
  lemma CleanupIdempotent(s: State, j: Job, ttl: Option<int>)
    ensures AfterCleanup(AfterCleanup(s, j, ttl), j, ttl) == AfterCleanup(s, j, ttl)
  {
    if ttl.Some? && ttl.value == 0 {
      DeleteIdempotent(s, j);
    }
  }

  // ---------------------------------------------------------------------------
  // Save and fetch

  /** A job without a call cannot be saved. */
  lemma SaveEmptyJobFails(s: State, id: JobId, now: Timestamp)
    ensures AfterSave(s, NewJob(id, now)) == Err(EmptyJob)
  {
  }

  /**
   * Saving a job with a call and a TTL other than zero merges the job's
   * attributes into its record, and touches neither the other records nor
   * the children sets, queues and deferred sets. The record's expiry follows
   * the job's TTL; without one, an existing expiry is kept and a new record
   * does not expire. No other job's expiry changes.
   */
  lemma SaveEffects(s: State, j: Job)
    requires Valid(s) && j.callSpec.Some? && j.ttl != Some(0)
    ensures AfterSave(s, j).Ok?
    ensures var t := AfterSave(s, j).value;
      && Valid(t)
      && t.records == s.records[j.id := (if j.id in s.records then s.records[j.id] else map[]) + Dump(j)]
      && t.children == s.children && t.queues == s.queues && t.deferred == s.deferred
      && TtlOf(t, j.id) == (if j.ttl.Some? && j.ttl.value > 0 then j.ttl.value
                            else if j.ttl.Some? || j.id !in s.records then -1
                            else TtlOf(s, j.id))
      && (forall id :: id != j.id ==> TtlOf(t, id) == TtlOf(s, id))
      && (j.status.Some? ==> StatusOf(t, j.id) == j.status)
  {
    if j.status.Some? {
      DumpHolds(j, StatusField);
    }
    SaveExpiryFrame(s, j);
    TtlFrame(s, AfterSave(s, j).value, j.id);
  }

  /**
   * Saving a job that has no record yet creates a record holding exactly the
   * job's set attributes; fetching it gives the job back (timestamps to the
   * second), and the record expires only if the job has a positive TTL.
   */
  lemma SaveThenFetch(s: State, j: Job)
    requires Valid(s) && j.callSpec.Some? && j.id !in s.records
    requires j.ttl != Some(0)
    ensures AfterSave(s, j).Ok?
    ensures var t := AfterSave(s, j).value;
      && Valid(t)
      && t.records[j.id] == Dump(j)
      && Fetch(t, j.id) == Ok(Truncated(j))
      && TtlOf(t, j.id) == (if j.ttl.Some? && j.ttl.value > 0 then j.ttl.value else -1)
  {
    SaveEffects(s, j);
    assert map[] + Dump(j) == Dump(j);
    LoadDump(j);
  }

  /**
   * Saving a job whose TTL is zero deletes what the save wrote: the job's
   * record, expiry and children set are gone, its id leaves its origin
   * queue, and nothing else changes.
   */
  lemma SaveWithZeroTtl(s: State, j: Job)
    requires Valid(s) && j.callSpec.Some? && j.ttl == Some(0)
    ensures AfterSave(s, j).Ok?
    ensures var t := AfterSave(s, j).value;
      && Valid(t)
      && t.records == s.records - {j.id}
      && TtlOf(t, j.id) == -2 && Fetch(t, j.id) == Err(NoSuchJob)
      && t.children == s.children - {j.id}
      && t.deferred == s.deferred
      && (forall id :: id != j.id ==> TtlOf(t, id) == TtlOf(s, id))
      && (forall q :: QueueIds(t, q) == if j.origin == Some(q) then RemoveAll(QueueIds(s, q), j.id) else QueueIds(s, q))
  {
    var t := AfterSave(s, j).value;
    forall q
      ensures QueueIds(t, q) == if j.origin == Some(q) then RemoveAll(QueueIds(s, q), j.id) else QueueIds(s, q)
    {
      if j.origin == Some(q) && q !in s.queues {
        assert RemoveAll([], j.id) == [];
      }
    }
  }

  // ---------------------------------------------------------------------------
  // Enqueue

  lemma WithChildAt(children: map<JobId, set<JobId>>, parents: seq<JobId>, child: JobId, p: JobId)
    ensures var c := WithChild(children, parents, child);
      (if p in c then c[p] else {}) ==
      (if p in children then children[p] else {}) + (if p in parents then {child} else {})
  {
  }

  /**
   * The job an enqueue saves is the given job, with every attribute kept,
   * queued with its enqueue time if every parent is finished, else deferred.
   */
  lemma EnqueuedJob(s: State, j: Job, now: Timestamp)
    requires Valid(s) && j.origin.Some? && j.callSpec.Some?
    ensures AfterEnqueueOrDefer(s, j, now).Ok?
    ensures var job := AfterEnqueueOrDefer(s, j, now).value.1;
      && (AllFinished(s, j.parentIds) ==> job == j.(status := Some(Queued), enqueuedAt := Some(now)))
      && (!AllFinished(s, j.parentIds) ==> job == j.(status := Some(Deferred)))
  {
  }

  /**
   * Enqueueing saves the job: its attributes are merged into its record,
   * no other record changes, the record's expiry follows the job's TTL, and
   * no other job's expiry changes.
   */
  lemma EnqueueStores(s: State, j: Job, now: Timestamp)
    requires Valid(s) && j.origin.Some? && j.callSpec.Some? && j.ttl != Some(0)
    ensures AfterEnqueueOrDefer(s, j, now).Ok?
    ensures var (t, job) := AfterEnqueueOrDefer(s, j, now).value;
      && Valid(t)
      && t.records == s.records[j.id := (if j.id in s.records then s.records[j.id] else map[]) + Dump(job)]
      && TtlOf(t, j.id) == (if j.ttl.Some? && j.ttl.value > 0 then j.ttl.value
                            else if j.ttl.Some? || j.id !in s.records then -1
                            else TtlOf(s, j.id))
      && (forall id :: id != j.id ==> TtlOf(t, id) == TtlOf(s, id))
  {
    EnqueuedJob(s, j, now);
    var job := AfterEnqueueOrDefer(s, j, now).value.1;
    SaveEffects(s, job);
    SaveExpiryFrame(s, job);
    TtlFrame(s, AfterEnqueueOrDefer(s, j, now).value.0, j.id);
  }

  /** Enqueueing registers the job as a child of each of its parents, and of no other job. */
  lemma EnqueueRegistersChildren(s: State, j: Job, now: Timestamp)
    requires Valid(s) && j.origin.Some? && j.callSpec.Some? && j.ttl != Some(0)
    ensures AfterEnqueueOrDefer(s, j, now).Ok?
    ensures var t := AfterEnqueueOrDefer(s, j, now).value.0;
      && Valid(t)
      && (forall p :: p in j.parentIds ==> ChildrenOf(t, p) == ChildrenOf(s, p) + {j.id})
      && (forall p :: p !in j.parentIds ==> ChildrenOf(t, p) == ChildrenOf(s, p))
  {
    var job := AfterEnqueueOrDefer(s, j, now).value.1;
    SaveEffects(s, job);
    var t := AfterEnqueueOrDefer(s, j, now).value.0;
    forall p
      ensures ChildrenOf(t, p) == ChildrenOf(s, p) + (if p in j.parentIds then {j.id} else {})
    {
      WithChildAt(s.children, j.parentIds, j.id, p);
    }
  }

  /**
   * When every parent is finished, enqueueing appends the job to the tail of
   * its origin queue, stores it with status queued, and leaves the other
   * queues and all deferred sets alone.
   */
  lemma EnqueueWhenReady(s: State, j: Job, now: Timestamp)
    requires Valid(s) && j.origin.Some? && j.callSpec.Some? && j.ttl != Some(0)
    requires AllFinished(s, j.parentIds)
    ensures AfterEnqueueOrDefer(s, j, now).Ok?
    ensures var t := AfterEnqueueOrDefer(s, j, now).value.0;
      var q := j.origin.value;
      && StatusOf(t, j.id) == Some(Queued)
      && QueueIds(t, q) == QueueIds(s, q) + [j.id]
      && (forall other :: other != q ==> QueueIds(t, other) == QueueIds(s, other))
      && t.deferred == s.deferred
  {
    EnqueuedJob(s, j, now);
    SaveEffects(s, AfterEnqueueOrDefer(s, j, now).value.1);
  }

  /**
   * When some parent is not finished, enqueueing adds the job to its origin
   * queue's deferred set, stores it with status deferred, and leaves the
   * other deferred sets and all queues alone.
   */
  lemma EnqueueWhenWaiting(s: State, j: Job, now: Timestamp)
    requires Valid(s) && j.origin.Some? && j.callSpec.Some? && j.ttl != Some(0)
    requires !AllFinished(s, j.parentIds)
    ensures AfterEnqueueOrDefer(s, j, now).Ok?
    ensures var t := AfterEnqueueOrDefer(s, j, now).value.0;
      var q := j.origin.value;
      && StatusOf(t, j.id) == Some(Deferred)
      && DeferredIds(t, q) == DeferredIds(s, q) + {j.id}
      && (forall other :: other != q ==> DeferredIds(t, other) == DeferredIds(s, other))
      && t.queues == s.queues
  {
    EnqueuedJob(s, j, now);
    SaveEffects(s, AfterEnqueueOrDefer(s, j, now).value.1);
  }

  /**
   * Enqueueing a job whose TTL is zero: the save deletes the job's record
   * and its children set, yet the job is still registered as a child of
   * each of its parents. No other record or expiry changes.
   */
  lemma EnqueueWithZeroTtl(s: State, j: Job, now: Timestamp)
    requires Valid(s) && j.origin.Some? && j.callSpec.Some? && j.ttl == Some(0)
    ensures AfterEnqueueOrDefer(s, j, now).Ok?
    ensures var t := AfterEnqueueOrDefer(s, j, now).value.0;
      && Valid(t)
      && t.records == s.records - {j.id} && Fetch(t, j.id) == Err(NoSuchJob)
      && (forall id :: id != j.id ==> TtlOf(t, id) == TtlOf(s, id))
      && (forall p :: p != j.id ==> ChildrenOf(t, p) == ChildrenOf(s, p) + (if p in j.parentIds then {j.id} else {}))
  {
    var job := AfterEnqueueOrDefer(s, j, now).value.1;
    SaveWithZeroTtl(s, job);
    var t := AfterEnqueueOrDefer(s, j, now).value.0;
    SaveExpiryFrame(s, job);
    TtlFrame(s, t, j.id);
    forall p | p != j.id
      ensures ChildrenOf(t, p) == ChildrenOf(s, p) + (if p in j.parentIds then {j.id} else {})
    {
      WithChildAt(AfterSave(s, job).value.children, j.parentIds, j.id, p);
    }
  }

  /**
   * Enqueueing a job whose TTL is zero takes its id out of its origin queue
   * with the deleted record, then places it all the same: at the queue's
   * tail when every parent is finished, else in the deferred set. Other
   * queues and deferred sets do not change.
   */
  lemma EnqueueWithZeroTtlPlaces(s: State, j: Job, now: Timestamp)
    requires Valid(s) && j.origin.Some? && j.callSpec.Some? && j.ttl == Some(0)
    ensures AfterEnqueueOrDefer(s, j, now).Ok?
    ensures var t := AfterEnqueueOrDefer(s, j, now).value.0;
      var q := j.origin.value;
      && (AllFinished(s, j.parentIds) ==>
            QueueIds(t, q) == RemoveAll(QueueIds(s, q), j.id) + [j.id] && t.deferred == s.deferred)
      && (!AllFinished(s, j.parentIds) ==>
            QueueIds(t, q) == RemoveAll(QueueIds(s, q), j.id) && DeferredIds(t, q) == DeferredIds(s, q) + {j.id})
      && (forall other :: other != q ==> QueueIds(t, other) == QueueIds(s, other) && DeferredIds(t, other) == DeferredIds(s, other))
  {
    SaveWithZeroTtl(s, AfterEnqueueOrDefer(s, j, now).value.1);
  }

  // ---------------------------------------------------------------------------
  // Perform

  lemma FinishedResultsKeys(s: State)
    ensures forall p :: p in FinishedResults(s) <==> StatusOf(s, p) == Some(Finished)
  {
  }

  /** Performing changes no expiry but the job's own, and no children set, queue or deferred set. */
  lemma PerformFrame(s: State, j: Job, now: Timestamp, run: CallSpec -> Outcome)
    requires Valid(s) && j.id in s.records
    ensures var t := AfterPerform(s, j, now, run).0;
      && t.expiry - {j.id} == s.expiry - {j.id}
      && t.children == s.children && t.queues == s.queues && t.deferred == s.deferred
  {
    var persisted := s.(expiry := s.expiry[j.id := NoExpiry]);
    assert persisted.expiry - {j.id} == s.expiry - {j.id};
    var (t, job, r) := AfterPerform(s, j, now, run);
    if r.Ok? {
      SaveEffects(persisted, job);
      SaveExpiryFrame(persisted, job);
    }
  }

  /**
   * Performing a job with a record: afterwards the record still exists and
   * does not expire, the job's TTL is -1, and no other record, no other
   * job's expiry, no children set, queue or deferred set changes.
   */
  lemma PerformPersists(s: State, j: Job, now: Timestamp, run: CallSpec -> Outcome)
    requires Valid(s) && j.id in s.records
    ensures var (t, job, r) := AfterPerform(s, j, now, run);
      && Valid(t)
      && j.id in t.records && TtlOf(t, j.id) == -1
      && GetTtl(job, None) == Some(-1)
      && t.records.Keys == s.records.Keys
      && (forall id :: id != j.id && id in s.records ==> t.records[id] == s.records[id])
      && (forall id :: id != j.id ==> TtlOf(t, id) == TtlOf(s, id))
      && t.children == s.children && t.queues == s.queues && t.deferred == s.deferred
  {
    var persisted := s.(expiry := s.expiry[j.id := NoExpiry]);
    var (t, job, r) := AfterPerform(s, j, now, run);
    if r.Ok? {
      SaveEffects(persisted, job);
    }
    PerformFrame(s, j, now, run);
    TtlFrame(s, t, j.id);
  }

  /**
   * Argument substitution fails exactly when some scanned parent is not
   * finished, and the failure names such a parent; otherwise the outcome is
   * stored: a returned value as the result with status finished, a raised
   * error with status failed. The job comes back with TTL -1, the outcome
   * and its end time, and no other attribute changed; its record is the old
   * record with the job's attributes written over it. On failure only the
   * record's expiry changes.
   */
  lemma PerformOutcome(s: State, j: Job, now: Timestamp, run: CallSpec -> Outcome)
    requires Valid(s) && j.id in s.records
    ensures var (t, job, r) := AfterPerform(s, j, now, run);
      && (r == Err(EmptyJob) <==> j.callSpec.None?)
      && (j.callSpec.Some? ==>
            var call := j.callSpec.value;
            && (r.Ok? <==> forall p :: p in ScanFutures(call.args, call.kwargs) ==> StatusOf(s, p) == Some(Finished))
            && (r.Err? ==> r.error.DependencyNotResolved?
                           && r.error.parent in ScanFutures(call.args, call.kwargs)
                           && StatusOf(s, r.error.parent) != Some(Finished)))
      && (r.Ok? ==> Valid(t) && j.id in t.records)
      && (r.Ok? && r.value.Returned? ==>
            StatusOf(t, j.id) == Some(Finished) && ResultAt(t.records[j.id]) == Some(r.value.value))
      && (r.Ok? && r.value.Raised? ==> StatusOf(t, j.id) == Some(Failed))
      && (r.Ok? && r.value.Returned? ==>
            job == j.(ttl := Some(-1), result := Some(r.value.value), status := Some(Finished), endedAt := Some(now)))
      && (r.Ok? && r.value.Raised? ==>
            job == j.(ttl := Some(-1), excInfo := Some(r.value.excInfo), status := Some(Failed), endedAt := Some(now)))
      && (r.Ok? ==> job.callSpec.Some? && t.records == s.records[j.id := s.records[j.id] + Dump(job)])
      && (r.Err? ==> job == j.(ttl := Some(-1)) && t == s.(expiry := s.expiry[j.id := NoExpiry]))
  {
    var persisted := s.(expiry := s.expiry[j.id := NoExpiry]);
    assert FinishedResults(persisted) == FinishedResults(s);
    FinishedResultsKeys(s);
    if j.callSpec.Some? {
      var call := j.callSpec.value;
      ResolveCallNeedsParents(call.args, call.kwargs, FinishedResults(s));
      var (t, job, r) := AfterPerform(s, j, now, run);
      if r.Ok? {
        SaveEffects(persisted, job);
        DumpHolds(job, ResultField);
      }
    }
  }

  /**
   * When the references resolve, the outcome is the function applied to the
   * call with every reference replaced by the referenced job's result.
   */
  lemma PerformRunsResolvedCall(s: State, j: Job, now: Timestamp, run: CallSpec -> Outcome,
                                args: seq<Arg>, kwargs: seq<Entry>)
    requires j.callSpec.Some?
    requires ResolveCall(j.callSpec.value.args, j.callSpec.value.kwargs, FinishedResults(s)) == Ok((args, kwargs))
    ensures AfterPerform(s, j, now, run).2
         == Ok(run(CallSpec(j.callSpec.value.funcName, j.callSpec.value.instance, args, kwargs)))
    ensures ShapesIn(args) == ShapesIn(j.callSpec.value.args)
    ensures LeavesIn(args) == ReplaceLeaves(LeavesIn(j.callSpec.value.args), FinishedResults(s))
    ensures ShapesInEntries(kwargs) == ShapesInEntries(j.callSpec.value.kwargs)
    ensures LeavesInEntries(kwargs) == ReplaceLeaves(LeavesInEntries(j.callSpec.value.kwargs), FinishedResults(s))
  {
    var persisted := if j.id in s.records then s.(expiry := s.expiry[j.id := NoExpiry]) else s;
    assert FinishedResults(persisted) == FinishedResults(s);
    ResolveCallReplaces(j.callSpec.value.args, j.callSpec.value.kwargs, FinishedResults(s));
  }
}
