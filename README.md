# rq job lifecycle over an abstract store

This project models the job of the rq job queue as its job tests pin it down. The rq job queue persists deferred function calls ("jobs") in a key-value store. The model covers:

- how a job is created;
- its lazily checked call accessors and its TTL getters;
- the record it is saved as, and how it is fetched back;
- the three-way cleanup policy;
- deletion;
- enqueueing, which records the parents of a job from explicit dependencies and from references to other jobs' future results, registers the job as a child of each parent, and queues or defers it;
- performing, which replaces every future-result reference by the parent's stored result before running the call.

The store is a value of datatype `Stores.State`. Each of the following is a map:

- per job: its record (field → encoded value), its record's expiry, and its children set;
- per queue: its ordered id list and its deferred set.

Each operation is a function from a state to the next (`AfterSave`, `AfterCleanup`, `AfterDelete`, `AfterEnqueueOrDefer`, `AfterPerform`), and the lemmas of module `Stores` state what each one changes and that it leaves every other record, expiry, children set, queue and deferred set as it was. Class `JobStore.Store` holds the same maps as fields and updates them in place. Each of its methods is proved to leave the store in the state the matching function describes. Module `Scenarios` restates the individual job tests over an arbitrary store and derives them from the general lemmas.

Modules:

- `Wrappers`: Option and Result.
- `Arguments`: arguments and future-result references, the scan for references in first-seen order, substitution of results.
- `CallStrings`: the default description `func(args, name=value, ...)` with keyword arguments sorted by name.
- `Jobs`: the job, its accessors, its record (`Dump`, `Load`).
- `Stores`: the store as a value, and the operations as functions.
- `JobStore`: the store as an object with methods.
- `Scenarios`: the tests' scenarios.

Decisions where the tests leave room:

- `cleanup` with no TTL changes nothing.
- `cleanup` with a negative TTL removes the expiry. This includes -1, which the test uses.
- Saving applies the job's own TTL through cleanup. A TTL of 1 given to enqueue therefore shows as the record's expiry.
- Performing makes the record never expire and sets the job's TTL to -1. It then saves the result, the status and the end time. If an argument refers to a job that is not finished, performing fails with `DependencyNotResolved`, naming the first such job in scan order.
- A parent without a record counts as unfinished, so the job is deferred.

Where the tests pin down behaviour, the model follows them.

## Model

| member | source | states |
|---|---|---|
| Arguments.ScanFutures | tests/test_job.py:438-466 | The scanned parents are the ids referenced anywhere in the positional arguments and then in the keyword arguments, including inside lists and dictionaries. Each id appears once, ordered by its first occurrence. |
| Arguments.ParentIds | tests/test_job.py:194-209 | A new job's parents are the scanned references followed by the explicit dependencies. Each id appears once, in first-seen order, over the concatenated occurrence list. |
| Arguments.AddNewOrder | tests/test_job.py:452-466 | Ordered de-duplication keeps the ids already seen as a prefix and adds no duplicate. It holds exactly the ids seen or met. The added ids follow the order of their first occurrence. |
| Arguments.AddNewFromNothing | tests/test_job.py:452-466 | De-duplicating from nothing lists every referenced id once, in first-seen order. |
| Arguments.AddNewConcat | tests/test_job.py:452-466 | De-duplicating a concatenation equals de-duplicating its two parts one after the other. |
| Arguments.AddNewDistinct | tests/test_job.py:465-466 | On ids that are already distinct, de-duplication keeps them all, in place. |
| Arguments.CollectIsAddNew | tests/test_job.py:456-459 | The one-pass scan of an argument equals de-duplicating the list of its references. |
| Arguments.CollectInIsAddNew | tests/test_job.py:456-459 | The one-pass scan of a list of arguments equals de-duplicating the list of their references. |
| Arguments.CollectInEntriesIsAddNew | tests/test_job.py:442-444 | The one-pass scan of keyword arguments equals de-duplicating the list of their references. |
| Arguments.ParentIdsDistinct | tests/test_job.py:450 | When no id is referenced twice, the parents are the references in the order written, followed by the explicit dependencies. |
| Arguments.FirstMissing | tests/test_job.py:468-479 | Returns nothing exactly when every referenced id has a result. Otherwise it returns a referenced id that has none. |
| Arguments.FirstMissingConcat | tests/test_job.py:468-479 | The first missing id of a concatenation is the first part's, if it has one, and otherwise the second part's. |
| Arguments.FirstMissingIsFirst | tests/test_job.py:468-479 | Every id that occurs before the first missing id has a result. |
| Arguments.ResolveSpec | tests/test_job.py:468-479 | Substitution in an argument fails exactly when some reference lacks a result, naming the first such reference. When it succeeds, no reference is left. |
| Arguments.ResolveInSpec | tests/test_job.py:456-459 | The same for a list of arguments. A success keeps the length. |
| Arguments.ResolveInEntriesSpec | tests/test_job.py:472-476 | The same for keyword arguments. A success keeps every name in place. |
| Arguments.Resolve | tests/test_job.py:468-479 | Substitution in one argument. A value stays as it is. A reference becomes the referenced job's result, or fails naming that job when it has none. Lists and dictionaries are resolved element by element, in order. Its properties are `ResolveSpec` and `ResolveReplaces`. |
| Arguments.ReplaceLeaves | tests/test_job.py:472-479 | Replacing each leaf of a list keeps its length. |
| Arguments.ReplaceLeavesConcat | tests/test_job.py:456-459 | Replacing the leaves of a concatenation replaces those of each part. |
| Arguments.ResolveReplaces | tests/test_job.py:468-479 | A successful substitution keeps the argument's nesting. Its leaves are the original leaves, depth-first, with each reference replaced by the referenced job's result and each value left alone. |
| Arguments.ResolveInReplaces | tests/test_job.py:456-459 | The same for a list of arguments: the same nesting element by element, and the leaves with references replaced by results. |
| Arguments.ResolveInEntriesReplaces | tests/test_job.py:472-476 | The same for keyword arguments: the same names and nesting, and the leaves with references replaced by results. |
| Arguments.ResolveWithoutFutures | tests/test_job.py:344-354 | An argument without references is left exactly as it is. |
| Arguments.ResolveInWithoutFutures | tests/test_job.py:344-354 | A list without references is left exactly as it is. |
| Arguments.ResolveInEntriesWithoutFutures | tests/test_job.py:471 | Keyword arguments without references are left exactly as they are. |
| Arguments.ResolveCallNeedsParents | tests/test_job.py:468-479 | A call resolves exactly when every scanned parent has a result. On failure it names a scanned parent without a result, and every reference before that parent has one. |
| Arguments.ResolveCallWithoutFutures | tests/test_job.py:351 | A call without references resolves to itself. |
| Arguments.ResolveCall | tests/test_job.py:468-479 | Substitution in a whole call: the positional arguments first, then the keyword arguments. The first failure is reported. Its properties are `ResolveCallNeedsParents`, `ResolveCallReplaces` and `ResolveCallWithoutFutures`. |
| Arguments.ResolveCallReplaces | tests/test_job.py:468-479 | A resolved call has the original positional and keyword arguments, nested alike and under the same names, with every reference replaced by the referenced job's result. |
| CallStrings.KeyLeTotal | tests/test_job.py:35 | Any two names are ordered one way or the other. |
| CallStrings.KeyLeTransitive | tests/test_job.py:35 | The name order is transitive. |
| CallStrings.KeyLeAntisymmetric | tests/test_job.py:35 | Names ordered both ways are equal. |
| CallStrings.Insert | tests/test_job.py:35 | Inserting into a sorted keyword list gives a sorted list with the same entries plus the new one. |
| CallStrings.SortByKey | tests/test_job.py:29-35 | The keyword arguments sorted by name form a sorted permutation of the given ones. |
| CallStrings.SortedUnique | tests/test_job.py:29-35 | Two sorted lists with the same entries, where a name determines the entry, are equal. |
| CallStrings.CallString | tests/test_job.py:24-43 | The default description: the function name, then the positional reprs and the `name=repr` keyword parts sorted by name, joined with `, ` in parentheses. Its properties are `CallStringIgnoresKwargOrder` and `UnicodeDescription`. |
| CallStrings.CallStringIgnoresKwargOrder | tests/test_job.py:29-35 | The description does not depend on the order in which distinct keyword arguments were given. |
| CallStrings.SnowmanNullSorted | tests/test_job.py:29 | `null` sorts before `snowman`. |
| CallStrings.UnicodeDescriptionParts | tests/test_job.py:26-35 | Given the Python 3 reprs, the parts of the call are `12`, `'☃'`, `null=None`, `snowman='☃'`, in that order. |
| CallStrings.UnicodeDescriptionText | tests/test_job.py:35 | Those parts joined make `myfunc(12, '☃', null=None, snowman='☃')`. |
| CallStrings.UnicodeDescription | tests/test_job.py:24-43 | The description of `myfunc(12, '☃', snowman='☃', null=None)` is `myfunc(12, '☃', null=None, snowman='☃')`. |
| Jobs.Func | tests/test_job.py:61-62 | Fails with the empty-job error exactly when the job has no call. Otherwise it gives the call's function name. |
| Jobs.Instance | tests/test_job.py:63-64 | Fails with the empty-job error exactly when the job has no call. Otherwise it gives the call's instance. |
| Jobs.Args | tests/test_job.py:65-66 | Fails with the empty-job error exactly when the job has no call. Otherwise it gives the call's positional arguments. |
| Jobs.Kwargs | tests/test_job.py:67-68 | Fails with the empty-job error exactly when the job has no call. Otherwise it gives the call's keyword arguments. |
| Jobs.Create | tests/test_job.py:70-89 | A job for a call aimed at a queue, with the parents from the call's references and the explicit dependencies, and a description defaulting to the call string. Its properties are `CreateTypical` and `TypicalJobFields`. |
| Jobs.CreateTypical | tests/test_job.py:70-89 | A created job has its id, creation time and origin. The accessors give the call's function, instance and arguments. It has no enqueue time, status or result. The TTL getters give the TTLs it was created with. The description is the one given (tests/test_job.py:289-295), else the call string (tests/test_job.py:297-305). |
| Jobs.GetTtl | tests/test_job.py:327-336 | The job's own TTL when it has one, otherwise the default. |
| Jobs.GetResultTtl | tests/test_job.py:313-325 | The job's own result TTL when it has one, otherwise the default. |
| Jobs.Dump | tests/test_job.py:140-152 | The record a job is saved as: one field per attribute the job has set. Its properties are `DumpHolds`, `DumpTruncated` and `LoadDump`. |
| Jobs.Load | tests/test_job.py:154-169 | Reading a job back from its record. A record without data is no job, and a field of the wrong kind is unreadable. Its properties are `LoadDump` and `Stores.SaveThenFetch`. |
| Jobs.DumpHolds | tests/test_job.py:189-192 | A saved record holds a field exactly when the job has that attribute set, encoded with a value of the field's kind. |
| Jobs.LoadDump | tests/test_job.py:211-223 | Loading a saved record gives the job back, with every attribute equal (meta included) and the timestamps cut to whole seconds. |
| Jobs.DumpTruncated | tests/test_job.py:183-187 | Cutting a job's timestamps to whole seconds does not change its record. The stored creation date is the date with the microseconds stripped. |
| Jobs.DumpOfCallOnly | tests/test_job.py:189-192 | A job whose only attributes are its creation time, call, description and origin stores exactly those four fields. |
| Jobs.TypicalJobFields | tests/test_job.py:177-192 | A job created for a call without references, dependencies or TTLs stores exactly `created_at`, `data`, `description` and `origin`. |
| Jobs.EmptyJobAccessorsFail | tests/test_job.py:45-68 | An empty job has a creation time and no origin, timestamps, result or exception. All four call accessors fail. |
| Stores.RemoveAll | tests/test_job.py:410 | The id is absent from the result. The result holds every other id as many times as before. |
| Stores.RemoveAllAbsent | tests/test_job.py:410 | Removing an id that is not in the list leaves the list unchanged. |
| Stores.RemoveAllConcat | tests/test_job.py:410 | Removal distributes over concatenation, so the remaining ids keep their order. |
| Stores.TtlFrame | tests/test_job.py:356-372 | Two stores whose expiries agree away from one id report the same TTL for every other id. |
| Stores.CleanupExpiryFrame | tests/test_job.py:356-372 | Cleanup changes no expiry but the job's own. |
| Stores.SaveExpiryFrame | tests/test_job.py:140-148 | Saving changes no expiry but the job's own, whatever the job's TTL. |
| Stores.Fetch | tests/test_job.py:225-228 | Fetching an id without a record fails with NoSuchJob. Otherwise the job is loaded from its record. Its properties are `SaveThenFetch`, `CleanupPolicy` and `SaveWithZeroTtl`. |
| Stores.AfterDelete | tests/test_job.py:393-410 | Deletion as a step of the store. Its properties are `DeleteEffects` and `DeleteIdempotent`. |
| Stores.AfterCleanup | tests/test_job.py:356-372 | The three-way cleanup as a step of the store. Its properties are `CleanupPolicy` and `CleanupIdempotent`. |
| Stores.AfterSave | tests/test_job.py:140-148 | Saving as a step of the store. It fails for an empty job, merges the record, and then applies the job's TTL. Its properties are `SaveEffects`, `SaveThenFetch`, `SaveWithZeroTtl` and `SaveEmptyJobFails`. |
| Stores.AfterEnqueueOrDefer | tests/test_job.py:374-405 | Enqueueing as a step of the store. Its properties are `EnqueuedJob`, `EnqueueStores`, `EnqueueRegistersChildren`, `EnqueueWhenReady`, `EnqueueWhenWaiting`, `EnqueueWithZeroTtl` and `EnqueueWithZeroTtlPlaces`. |
| Stores.AfterPerform | tests/test_job.py:344-354 | Performing as a step of the store. Its properties are `PerformPersists`, `PerformOutcome` and `PerformRunsResolvedCall`. |
| Stores.CleanupPolicy | tests/test_job.py:356-372 | Cleanup with a negative TTL keeps the records and the record never expires (TTL -1). A positive TTL keeps the records and the record expires in exactly that many seconds. With a non-zero TTL the children sets, queues and deferred sets do not change. Zero is deletion, so fetching fails with NoSuchJob and the TTL reads -2. No other job's TTL changes. |
| Stores.CleanupWithoutTtl | tests/test_job.py:356-372 | Cleanup without a TTL changes nothing. |
| Stores.DeleteEffects | tests/test_job.py:393-410 | Deleting removes the record and the children set. Every other record, TTL and children set is left alone. The origin queue loses every copy of the id and keeps all other ids in their order (it is `RemoveAll` of the old queue; see `RemoveAllConcat`). Other queues and the deferred sets do not change. |
| Stores.DeleteIdempotent | tests/test_job.py:393-410 | Deleting twice gives the same store as deleting once. |
| Stores.CleanupIdempotent | tests/test_job.py:356-372 | Cleaning up twice with the same TTL gives the same store as cleaning up once. |
| Stores.SaveEmptyJobFails | tests/test_job.py:171-175 | Saving an empty job fails with the empty-job error. |
| Stores.SaveEffects | tests/test_job.py:140-148 | Saving a job with a call merges its record into the store. Other records, other jobs' TTLs, children sets, queues and deferred sets do not change. The record's TTL follows the job's TTL, and a stored status reads back. |
| Stores.SaveThenFetch | tests/test_job.py:211-223 | Saving a job that has no record yet creates the record from exactly its set attributes. Fetching then returns the job, and the record expires only for a positive TTL. |
| Stores.SaveWithZeroTtl | tests/test_job.py:369-372 | Saving a job whose TTL is zero leaves no record, expiry or children set for it, so fetching fails and the TTL reads -2. Its id leaves its origin queue. Every other record, TTL, children set, queue and deferred set is unchanged. |
| Stores.WithChildAt | tests/test_job.py:386-390 | After registration, a job's children set is its old set plus the new child if it is one of the parents. |
| Stores.EnqueuedJob | tests/test_job.py:338-342 | Enqueueing a job with a call succeeds. The saved job is the given job with every attribute kept, except that it is queued with its enqueue time when every parent is finished, and deferred otherwise. |
| Stores.EnqueueStores | tests/test_job.py:421-429 | Enqueueing merges the job into its record and leaves the other records and the other jobs' TTLs alone. The record's TTL is the job's TTL. |
| Stores.EnqueueRegistersChildren | tests/test_job.py:386-390 | Enqueueing adds the job to the children set of each of its parents, and to no other children set. |
| Stores.EnqueueWhenReady | tests/test_job.py:398-401 | With every parent finished, enqueueing appends the job to the tail of its origin queue with status queued. The other queues and all deferred sets do not change. |
| Stores.EnqueueWhenWaiting | tests/test_job.py:374-391 | With a parent unfinished, enqueueing adds the job to its queue's deferred set with status deferred. The other deferred sets and all queues do not change. |
| Stores.EnqueueWithZeroTtl | tests/test_job.py:374-391 | Enqueueing a job whose TTL is zero leaves no record for it, yet still registers it as a child of each parent. Every other record, TTL and children set is unchanged. |
| Stores.EnqueueWithZeroTtlPlaces | tests/test_job.py:398-405 | Enqueueing a job whose TTL is zero still places its id: at the tail of its origin queue (after any earlier copy is removed) when every parent is finished, else in the deferred set. Other queues and deferred sets do not change. |
| Stores.FinishedResultsKeys | tests/test_job.py:468-479 | The stored results are those of exactly the finished jobs. |
| Stores.PerformFrame | tests/test_job.py:344-354 | Performing changes no expiry but the job's own, and no children set, queue or deferred set. |
| Stores.PerformPersists | tests/test_job.py:344-354 | After perform the record still exists and never expires (TTL -1), and the job's TTL reads -1. The set of records, every other record and every other job's TTL do not change, nor do the children sets, queues and deferred sets. |
| Stores.PerformOutcome | tests/test_job.py:468-479 | Perform fails with the empty-job error exactly when there is no call. It succeeds exactly when every scanned parent is finished; otherwise the error names an unfinished scanned parent and only the record's expiry changes. A returned value is stored as the result with status finished, and a raised error gives status failed. The job comes back with TTL -1, the outcome and the end time, and every other attribute unchanged. Its record is the old record with the job's attributes written over it. |
| Stores.PerformRunsResolvedCall | tests/test_job.py:475-479 | When the references resolve, the outcome is the function applied to the resolved call. That call has the original arguments, nested alike and under the same names, with each reference replaced by the finished parent's stored result. |
| JobStore.WithChildStep | tests/test_job.py:386-390 | Registering the child with one more parent extends the children map by that parent. This is the loop invariant's step. |
| JobStore.Store.constructor | tests/test_job.py:145-146 | A new store holds nothing. |
| JobStore.Store.Delete | tests/test_job.py:393-410 | The new state is `AfterDelete` of the old one (see `Stores.DeleteEffects`), and the store stays well formed. |
| JobStore.Store.Cleanup | tests/test_job.py:356-372 | The new state is `AfterCleanup` of the old one (see `Stores.CleanupPolicy`). |
| JobStore.Store.Save | tests/test_job.py:140-148 | Returns the empty-job error and changes nothing for a job without a call. Otherwise the new state is `AfterSave` of the old one. |
| JobStore.Store.EnqueueOrDefer | tests/test_job.py:403-405 | Queues or defers, saves, and registers the job with each parent in a loop. The new state and the returned job are `AfterEnqueueOrDefer` of the old state. |
| JobStore.Store.Enqueue | tests/test_job.py:383-384 | Creating a job and enqueueing it always succeeds. The new state and job are those of `AfterEnqueueOrDefer` on the created job. |
| JobStore.Store.Perform | tests/test_job.py:468-479 | The new state, the updated job and the outcome are `AfterPerform` of the old state. |
| Scenarios.TypicalJobStored | tests/test_job.py:177-192 | A saved typical job stores exactly the four fields and is fetched back. Fetching an id without a record fails with NoSuchJob. |
| Scenarios.ParentIsPersisted | tests/test_job.py:194-209 | A dependency given as a job or as its id is stored and fetched as the only parent. |
| Scenarios.TtlsOfSavedJob | tests/test_job.py:313-336 | The TTL getters return the job's own TTLs, or the default when unset, before and after a save and fetch. |
| Scenarios.CleanupSequence | tests/test_job.py:356-372 | After save, cleanup -1 gives TTL -1, then cleanup 100 gives TTL 100, then cleanup 0 makes fetching fail. |
| Scenarios.MixedDependencyParents | tests/test_job.py:379-384 | A dependency list holding a job and an id gives both as parents, in that order. |
| Scenarios.DeferUnderTwoParents | tests/test_job.py:383-396 | With the first parent unfinished, the job becomes the only child of both parents and the only deferred job. Deleting it removes its record and children set. |
| Scenarios.RegisterDependency | tests/test_job.py:374-396 | The test itself: enqueueing on "some_queue" with a mixed dependency list, then deleting. |
| Scenarios.QueueWithoutParents | tests/test_job.py:400-401 | A job without parents is appended to its queue, queued and stored, and no children set changes. |
| Scenarios.DeferUnderQueued | tests/test_job.py:403-405 | A job whose only parent is queued is deferred and becomes that parent's child. The queues do not change. |
| Scenarios.DeleteWithDependent | tests/test_job.py:398-410 | Enqueue a job, then a dependent, then delete the first job. The first job's record and children set are gone, and its id is no longer in its queue. |
| Scenarios.ChildOfEach | tests/test_job.py:446-449 | A single enqueue's effect on one given children set. |
| Scenarios.FibonacciParents | tests/test_job.py:442-444 | A step on two integers has no parents. A step given a future result has that job as its only parent. |
| Scenarios.ChildAfterTwo | tests/test_job.py:438-450 | After the two enqueues, the second job's parents are the first job, and the first job's children are the second job. |
| Scenarios.FutureResultAddsDependency | tests/test_job.py:438-450 | The test itself, for any integers and any description. |
| Scenarios.FuturesOccurrences | tests/test_job.py:457-459 | A list of future results references exactly their jobs, in order. |
| Scenarios.NBackSumParents | tests/test_job.py:456-459 | The parents of `n_back_sum([futures of ids])` are the distinct `ids`, in order. |
| Scenarios.ChildrenAfterThree | tests/test_job.py:452-466 | After the three enqueues, the first job's children are the second and third jobs, and their parents are as written. |
| Scenarios.FutureResultInListAddsDependency | tests/test_job.py:452-466 | The test itself, for any description. |
| Scenarios.FibonacciStepSums | tests/test_job.py:468-479 | `fibonacci_step(two_back=a, one_back=b)` returns a + b. |
| Scenarios.FibonacciStepSumsSteps | tests/test_job.py:468-479 | `fibonacci_step` gives the sums both steps need. |
| Scenarios.NeverExpireDuringExecution | tests/test_job.py:344-354 | A job enqueued with TTL 1 reports TTL 1, and its record expires in 1 second even after a second save. After perform, the job's TTL is -1, the record exists and never expires, and the outcome is the function's on the call. |
| Scenarios.PerformFirstStep | tests/test_job.py:471-478 | Performing a step on two integers returns their sum and stores it as the finished result. |
| Scenarios.PerformSecondStep | tests/test_job.py:472-479 | Performing a step whose `one_back` refers to a finished step uses that step's stored result. |
| Scenarios.TwoEnqueuedStored | tests/test_job.py:470-473 | After two enqueues, both jobs are stored, with their ids and calls unchanged. |
| Scenarios.PerformTwoSteps | tests/test_job.py:475-479 | Performing the first step and then the second returns a + b and then b + (a + b). |
| Scenarios.FutureResultResolvesWhenPerformed | tests/test_job.py:468-479 | The test itself: with a = 0 and b = 1 the results are 1 and 2, for any integers and any description. |

## Left out

- The Redis client and wire protocol: the store is a value with maps, and the commands become map updates.
- The pickle codec. `data`, `result` and `meta` are stored as abstract values. Because the codec is abstract, the unreadable-data path (tests/test_job.py:119-138, 230-243) is not modelled. `Jobs.Load` reports a field of the wrong kind as unreadable, but lazy, per-attribute unpickling errors are not modelled.
- Importing the function by name, and the AttributeError for an unimportable function (tests/test_job.py:245-260). A call's function is its name, and a bound instance is an optional value (tests/test_job.py:91-117).
- Wall-clock expiry. An expiry is recorded as "expires in n seconds" and never counts down. `get_jobs` skipping expired jobs (tests/test_job.py:421-436) is therefore not modelled.
- Python 2 versus 3 and the exact `repr` of a value. `repr` is a parameter, and the tests' Python 3 reprs are requirements of `CallStrings.UnicodeDescription`. The repr of a custom object (tests/test_job.py:412-419) is not modelled.
- The worker, the synchronous queue (tests/test_job.py:307-311), and promoting deferred children once their parents finish. None of these is observable in the job tests.
- Stores.AfterPerform: does not apply the result TTL after performing. The worker schedules that cleanup, and it is not part of this model.
- Random job ids and the current time are parameters.
- Jobs.Create and JobStore.Store.Enqueue: the queue name is a parameter rather than the default queue. `Stores.AfterEnqueueOrDefer` therefore requires a job with an origin.
- Python updates the job object in place in save, enqueue and perform. The model returns the updated job as a value.
- Dictionary arguments are lists of entries in insertion order. This follows Python's ordered dictionaries, which the first-seen order relies on.
- Scenarios.FutureResultAddsDependency, Scenarios.FutureResultInListAddsDependency and Scenarios.FutureResultResolvesWhenPerformed: the description is a parameter, which includes the tests' default (`None`). The default description is covered separately by `CallStrings.UnicodeDescription`.
- Stores.SaveEffects, Stores.SaveThenFetch, Stores.EnqueueStores, Stores.EnqueueRegistersChildren, Stores.EnqueueWhenReady and Stores.EnqueueWhenWaiting: require a TTL other than zero. With TTL 0 the save deletes the record it wrote, which these contracts do not describe. That case is stated by `Stores.SaveWithZeroTtl`, `Stores.EnqueueWithZeroTtl` and `Stores.EnqueueWithZeroTtlPlaces`: the record is gone, but the id is still queued or deferred, and the job is still registered as its parents' child (except as a child of itself).
- The scenario lemmas require jobs whose TTL is not zero, and ids that are fresh where the test's random ids are.
