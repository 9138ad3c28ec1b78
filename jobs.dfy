/**
 * The job entity: what a job holds in memory, how it is created, its lazily
 * checked call accessors, its TTL getters, and the field-by-field record it
 * is persisted as (a hash of field names to encoded values).
 */
module Jobs {
  import opened Wrappers
  import opened Arguments
  import CallStrings

  datatype Status = Queued | Deferred | Started | Finished | Failed

  /** The deferred call: function name, bound instance (if any), arguments. */
  datatype CallSpec = CallSpec(funcName: string, instance: Option<Value>, args: seq<Arg>, kwargs: seq<Entry>)

  /** Microseconds since the epoch. */
  type Timestamp = nat

  const MicrosPerSecond: nat := 1000000

  datatype Job = Job(
    id: JobId,
    createdAt: Option<Timestamp>,
    origin: Option<string>,
    enqueuedAt: Option<Timestamp>,
    startedAt: Option<Timestamp>,
    endedAt: Option<Timestamp>,
    callSpec: Option<CallSpec>,
    description: Option<string>,
    result: Option<Value>,
    excInfo: Option<string>,
    meta: map<string, Value>,
    status: Option<Status>,
    parentIds: seq<JobId>,
    ttl: Option<int>,
    resultTtl: Option<int>)

  datatype Field =
    | CreatedAtField | EnqueuedAtField | StartedAtField | EndedAtField
    | DataField | DescriptionField | OriginField | ResultField | ExcInfoField
    | MetaField | StatusField | TtlField | ResultTtlField | ParentIdsField

  /** An encoded field value. The call and value encodings are kept abstract. */
  datatype Stored =
    | Seconds(seconds: nat)
    | Text(text: string)
    | CallData(spec: CallSpec)
    | Pickled(value: Value)
    | MetaData(meta: map<string, Value>)
    | StatusName(status: Status)
    | Number(n: int)
    | IdList(ids: seq<JobId>)

  /** The stored hash of one job. */
  type Record = map<Field, Stored>

  datatype JobError =
    | EmptyJob                          // no call specification: the ValueError of the accessors and of save
    | NoSuchJob                         // fetch found no record
    | UnreadableField(field: Field)     // a stored field holds a value of the wrong kind
    | DependencyNotResolved(parent: JobId)

  // ---------------------------------------------------------------------------
  // Creation

  /** A job with nothing but an id and a creation time. */
  function NewJob(id: JobId, now: Timestamp): Job {
    Job(id, Some(now), None, None, None, None, None, None, None, None, map[], None, [], None, None)
  }

  /**
   * A job for the call `funcName(args, kwargs)` aimed at queue `origin`. Its
   * parents are the referenced futures and the explicit dependencies; its
   * description defaults to the call string.
   */
  function Create(id: JobId, now: Timestamp, origin: string, call: CallSpec, dependsOn: DependsOn,
                  ttl: Option<int>, resultTtl: Option<int>, description: Option<string>,
                  repr: Arg -> string): Job
  {
    var text := if description.Some? then description.value
                else CallStrings.CallString(call.funcName, call.args, call.kwargs, repr);
    NewJob(id, now).(origin := Some(origin), callSpec := Some(call), description := Some(text),
                     parentIds := ParentIds(call.args, call.kwargs, dependsOn), ttl := ttl, resultTtl := resultTtl)
  }

  // ---------------------------------------------------------------------------
  // Accessors over the call specification: each fails on a job without one.

  function Func(j: Job): (r: Result<string, JobError>)
    ensures r.Err? <==> j.callSpec.None?
    ensures r.Err? ==> r.error == EmptyJob
    ensures r.Ok? ==> r.value == j.callSpec.value.funcName
  {
    if j.callSpec.None? then Err(EmptyJob) else Ok(j.callSpec.value.funcName)
  }

  function Instance(j: Job): (r: Result<Option<Value>, JobError>)
    ensures r.Err? <==> j.callSpec.None?
    ensures r.Err? ==> r.error == EmptyJob
    ensures r.Ok? ==> r.value == j.callSpec.value.instance
  {
    if j.callSpec.None? then Err(EmptyJob) else Ok(j.callSpec.value.instance)
  }

  function Args(j: Job): (r: Result<seq<Arg>, JobError>)
    ensures r.Err? <==> j.callSpec.None?
    ensures r.Err? ==> r.error == EmptyJob
    ensures r.Ok? ==> r.value == j.callSpec.value.args
  {
    if j.callSpec.None? then Err(EmptyJob) else Ok(j.callSpec.value.args)
  }

  function Kwargs(j: Job): (r: Result<seq<Entry>, JobError>)
    ensures r.Err? <==> j.callSpec.None?
    ensures r.Err? ==> r.error == EmptyJob
    ensures r.Ok? ==> r.value == j.callSpec.value.kwargs
  {
    if j.callSpec.None? then Err(EmptyJob) else Ok(j.callSpec.value.kwargs)
  }

  /** The job's own TTL when it has one, otherwise `default`. */
  function GetTtl(j: Job, default: Option<int>): (r: Option<int>)
    ensures j.ttl.Some? ==> r == j.ttl
    ensures j.ttl.None? ==> r == default
  {
    if j.ttl.Some? then j.ttl else default
  }

  /** The job's own result TTL when it has one, otherwise `default`. */
  function GetResultTtl(j: Job, default: Option<int>): (r: Option<int>)
    ensures j.resultTtl.Some? ==> r == j.resultTtl
    ensures j.resultTtl.None? ==> r == default
  {
    if j.resultTtl.Some? then j.resultTtl else default
  }

  // ---------------------------------------------------------------------------
  // The stored record. Timestamps are written with whole-second precision.

  const AllFields: set<Field> :=
    {CreatedAtField, EnqueuedAtField, StartedAtField, EndedAtField, DataField, DescriptionField,
     OriginField, ResultField, ExcInfoField, MetaField, StatusField, TtlField, ResultTtlField,
     ParentIdsField}

  /** Whether `save` writes field `f` of `j`: exactly when the attribute is set. */
  predicate Present(j: Job, f: Field) {
    match f
    case CreatedAtField => j.createdAt.Some?
    case EnqueuedAtField => j.enqueuedAt.Some?
    case StartedAtField => j.startedAt.Some?
    case EndedAtField => j.endedAt.Some?
    case DataField => j.callSpec.Some?
    case DescriptionField => j.description.Some?
    case OriginField => j.origin.Some?
    case ResultField => j.result.Some?
    case ExcInfoField => j.excInfo.Some?
    case MetaField => j.meta != map[]
    case StatusField => j.status.Some?
    case TtlField => j.ttl.Some?
    case ResultTtlField => j.resultTtl.Some?
    case ParentIdsField => j.parentIds != []
  }

  /** The encoded value of field `f` of `j`. */
  function Encode(j: Job, f: Field): Stored
    requires Present(j, f)
  {
    match f
    case CreatedAtField => Seconds(j.createdAt.value / MicrosPerSecond)
    case EnqueuedAtField => Seconds(j.enqueuedAt.value / MicrosPerSecond)
    case StartedAtField => Seconds(j.startedAt.value / MicrosPerSecond)
    case EndedAtField => Seconds(j.endedAt.value / MicrosPerSecond)
    case DataField => CallData(j.callSpec.value)
    case DescriptionField => Text(j.description.value)
    case OriginField => Text(j.origin.value)
    case ResultField => Pickled(j.result.value)
    case ExcInfoField => Text(j.excInfo.value)
    case MetaField => MetaData(j.meta)
    case StatusField => StatusName(j.status.value)
    case TtlField => Number(j.ttl.value)
    case ResultTtlField => Number(j.resultTtl.value)
    case ParentIdsField => IdList(j.parentIds)
  }

  /** The fields `save` writes: every attribute that is set, and no other. */
  function Dump(j: Job): Record
    requires j.callSpec.Some?
  {
    map f | f in AllFields && Present(j, f) :: Encode(j, f)
  }

  /** Whether `s` is the kind of value field `f` holds. */
  predicate KindFits(f: Field, s: Stored) {
    match f
    case CreatedAtField | EnqueuedAtField | StartedAtField | EndedAtField => s.Seconds?
    case DataField => s.CallData?
    case DescriptionField | OriginField | ExcInfoField => s.Text?
    case ResultField => s.Pickled?
    case MetaField => s.MetaData?
    case StatusField => s.StatusName?
    case TtlField | ResultTtlField => s.Number?
    case ParentIdsField => s.IdList?
  }

  /** The order in which fields are read back. */
  const ReadOrder: seq<Field> :=
    [CreatedAtField, EnqueuedAtField, StartedAtField, EndedAtField, DataField, DescriptionField,
     OriginField, ResultField, ExcInfoField, MetaField, StatusField, TtlField, ResultTtlField,
     ParentIdsField]

  /** The first field of `fs` that `rec` holds with a value of the wrong kind. */
  function FirstUnreadable(rec: Record, fs: seq<Field>): (r: Option<Field>)
    ensures r.None? <==> forall f :: f in fs && f in rec ==> KindFits(f, rec[f])
    ensures r.Some? ==> r.value in fs && r.value in rec && !KindFits(r.value, rec[r.value])
  {
    if fs == [] then None
    else if fs[0] in rec && !KindFits(fs[0], rec[fs[0]]) then Some(fs[0])
    else FirstUnreadable(rec, fs[1..])
  }

  function TimeAt(rec: Record, f: Field): Option<Timestamp> {
    if f in rec && rec[f].Seconds? then Some(rec[f].seconds * MicrosPerSecond) else None
  }

  function TextAt(rec: Record, f: Field): Option<string> {
    if f in rec && rec[f].Text? then Some(rec[f].text) else None
  }

  function NumberAt(rec: Record, f: Field): Option<int> {
    if f in rec && rec[f].Number? then Some(rec[f].n) else None
  }

  function ResultAt(rec: Record): Option<Value> {
    if ResultField in rec && rec[ResultField].Pickled? then Some(rec[ResultField].value) else None
  }

  function MetaAt(rec: Record): map<string, Value> {
    if MetaField in rec && rec[MetaField].MetaData? then rec[MetaField].meta else map[]
  }

  function StatusAt(rec: Record): Option<Status> {
    if StatusField in rec && rec[StatusField].StatusName? then Some(rec[StatusField].status) else None
  }

  function ParentIdsAt(rec: Record): seq<JobId> {
    if ParentIdsField in rec && rec[ParentIdsField].IdList? then rec[ParentIdsField].ids else []
  }

  /**
   * The job a stored record describes. A record without call data is not a
   * job; a field holding the wrong kind of value cannot be read.
   */
  function Load(id: JobId, rec: Record): Result<Job, JobError> {
    if DataField !in rec then Err(NoSuchJob)
    else if !rec[DataField].CallData? then Err(UnreadableField(DataField))
    else if FirstUnreadable(rec, ReadOrder).Some? then Err(UnreadableField(FirstUnreadable(rec, ReadOrder).value))
    else
      Ok(Job(id, TimeAt(rec, CreatedAtField), TextAt(rec, OriginField),
             TimeAt(rec, EnqueuedAtField), TimeAt(rec, StartedAtField), TimeAt(rec, EndedAtField),
             Some(rec[DataField].spec), TextAt(rec, DescriptionField), ResultAt(rec),
             TextAt(rec, ExcInfoField), MetaAt(rec), StatusAt(rec), ParentIdsAt(rec),
             NumberAt(rec, TtlField), NumberAt(rec, ResultTtlField)))
  }

  function TruncateTime(t: Option<Timestamp>): Option<Timestamp> {
    if t.Some? then Some(t.value / MicrosPerSecond * MicrosPerSecond) else None
  }

  /** The job with its timestamps cut to whole seconds, as the store keeps them. */
  function Truncated(j: Job): Job {
    j.(createdAt := TruncateTime(j.createdAt), enqueuedAt := TruncateTime(j.enqueuedAt),
       startedAt := TruncateTime(j.startedAt), endedAt := TruncateTime(j.endedAt))
  }

  lemma SecondsRoundTrip(t: Timestamp)
    ensures (t / MicrosPerSecond * MicrosPerSecond) / MicrosPerSecond == t / MicrosPerSecond
  {
    var s := t / MicrosPerSecond;
    assert s * MicrosPerSecond / MicrosPerSecond == s;
  }

  lemma DumpHolds(j: Job, f: Field)
    requires j.callSpec.Some?
    ensures f in Dump(j) <==> Present(j, f)
    ensures f in Dump(j) ==> Dump(j)[f] == Encode(j, f) && KindFits(f, Encode(j, f))
  {
    assert f in AllFields;
  }

  /**
   * Saving then fetching gives the job back, with its timestamps cut to
   * whole seconds.
   */
  lemma LoadDump(j: Job)
    requires j.callSpec.Some?
    ensures Load(j.id, Dump(j)) == Ok(Truncated(j))
  {
    var rec := Dump(j);
    assert FirstUnreadable(rec, ReadOrder).None? by {
      forall f | f in ReadOrder && f in rec
        ensures KindFits(f, rec[f])
      {
        DumpHolds(j, f);
      }
    }
    assert rec[DataField] == CallData(j.callSpec.value) by { DumpHolds(j, DataField); }
    assert TimeAt(rec, CreatedAtField) == TruncateTime(j.createdAt) by { DumpHolds(j, CreatedAtField); }
    assert TimeAt(rec, EnqueuedAtField) == TruncateTime(j.enqueuedAt) by { DumpHolds(j, EnqueuedAtField); }
    assert TimeAt(rec, StartedAtField) == TruncateTime(j.startedAt) by { DumpHolds(j, StartedAtField); }
    assert TimeAt(rec, EndedAtField) == TruncateTime(j.endedAt) by { DumpHolds(j, EndedAtField); }
    assert TextAt(rec, DescriptionField) == j.description by { DumpHolds(j, DescriptionField); }
    assert TextAt(rec, OriginField) == j.origin by { DumpHolds(j, OriginField); }
    assert TextAt(rec, ExcInfoField) == j.excInfo by { DumpHolds(j, ExcInfoField); }
    assert ResultAt(rec) == j.result by { DumpHolds(j, ResultField); }
    assert MetaAt(rec) == j.meta by { DumpHolds(j, MetaField); }
    assert StatusAt(rec) == j.status by { DumpHolds(j, StatusField); }
    assert ParentIdsAt(rec) == j.parentIds by { DumpHolds(j, ParentIdsField); }
    assert NumberAt(rec, TtlField) == j.ttl by { DumpHolds(j, TtlField); }
    assert NumberAt(rec, ResultTtlField) == j.resultTtl by { DumpHolds(j, ResultTtlField); }
  }

  lemma EncodeTruncated(j: Job, f: Field)
    requires Present(j, f)
    ensures Present(Truncated(j), f) && Encode(Truncated(j), f) == Encode(j, f)
  {
    match f
    case CreatedAtField => SecondsRoundTrip(j.createdAt.value);
    case EnqueuedAtField => SecondsRoundTrip(j.enqueuedAt.value);
    case StartedAtField => SecondsRoundTrip(j.startedAt.value);
    case EndedAtField => SecondsRoundTrip(j.endedAt.value);
    case _ =>
  }

  /** Cutting timestamps to whole seconds does not change what is stored. */
  lemma DumpTruncated(j: Job)
    requires j.callSpec.Some?
    ensures Dump(Truncated(j)) == Dump(j)
  {
    forall f
      ensures Present(Truncated(j), f) <==> Present(j, f)
    {
      if Present(j, f) {
        EncodeTruncated(j, f);
      }
    }
    forall f | f in AllFields && Present(j, f)
      ensures Encode(Truncated(j), f) == Encode(j, f)
    {
      EncodeTruncated(j, f);
    }
  }

  /** A job whose only attributes are its creation time, call, description and origin. */
  predicate OnlyCallAttributes(j: Job) {
    && j.createdAt.Some? && j.callSpec.Some? && j.description.Some? && j.origin.Some?
    && j.enqueuedAt.None? && j.startedAt.None? && j.endedAt.None? && j.result.None?
    && j.excInfo.None? && j.meta == map[] && j.status.None? && j.ttl.None? && j.resultTtl.None?
    && j.parentIds == []
  }

  lemma DumpOfCallOnly(j: Job)
    requires OnlyCallAttributes(j)
    ensures Dump(j).Keys == {CreatedAtField, DataField, DescriptionField, OriginField}
  {
    forall f
      ensures f in Dump(j) <==> f in {CreatedAtField, DataField, DescriptionField, OriginField}
    {
      DumpHolds(j, f);
    }
  }

  /**
   * A job created for a call without references, explicit dependencies or
   * TTLs stores exactly its creation time, call data, description and origin.
   */
  lemma TypicalJobFields(id: JobId, now: Timestamp, origin: string, call: CallSpec, description: Option<string>,
                         repr: Arg -> string)
    requires OccurrencesIn(call.args) == [] && OccurrencesInEntries(call.kwargs) == []
    ensures Dump(Create(id, now, origin, call, NoDependency, None, None, description, repr)).Keys
         == {CreatedAtField, DataField, DescriptionField, OriginField}
  {
    var j := Create(id, now, origin, call, NoDependency, None, None, description, repr);
    ParentIdsDistinct(call.args, call.kwargs, NoDependency);
    assert OnlyCallAttributes(j);
    DumpOfCallOnly(j);
  }

  /**
   * A created job has its id, creation time and origin, answers the call's
   * parts through the accessors, and has no enqueue time, status or result
   * yet. Its description is the one given, else the call string.
   */
  lemma CreateTypical(id: JobId, now: Timestamp, origin: string, call: CallSpec, dependsOn: DependsOn,
                      ttl: Option<int>, resultTtl: Option<int>, description: Option<string>,
                      repr: Arg -> string)
    ensures var j := Create(id, now, origin, call, dependsOn, ttl, resultTtl, description, repr);
      && j.id == id && j.createdAt == Some(now) && j.origin == Some(origin)
      && Func(j) == Ok(call.funcName) && Instance(j) == Ok(call.instance)
      && Args(j) == Ok(call.args) && Kwargs(j) == Ok(call.kwargs)
      && j.enqueuedAt.None? && j.status.None? && j.result.None?
      && GetTtl(j, None) == ttl && GetResultTtl(j, None) == resultTtl
      && (description.Some? ==> j.description == description)
      && (description.None? ==> j.description == Some(CallStrings.CallString(call.funcName, call.args, call.kwargs, repr)))
  {
  }

  /** A job with nothing but an id has no call: every accessor fails. */
  lemma EmptyJobAccessorsFail(id: JobId, now: Timestamp)
    ensures var j := NewJob(id, now);
      && j.createdAt.Some? && j.origin.None? && j.enqueuedAt.None? && j.startedAt.None?
      && j.endedAt.None? && j.result.None? && j.excInfo.None?
      && Func(j) == Err(EmptyJob) && Instance(j) == Err(EmptyJob)
      && Args(j) == Err(EmptyJob) && Kwargs(j) == Err(EmptyJob)
  {
  }
}
