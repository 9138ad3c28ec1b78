/**
 * Call arguments of a job and the references to future results they may hold.
 *
 * An argument is either a concrete value, a reference to the not yet computed
 * result of another job, or a container (list, or dictionary kept in insertion
 * order) of arguments. Enqueueing scans the arguments for such references and
 * records the referenced jobs as parents, each once, in the order they are
 * first met; performing replaces every reference by the parent's result.
 */
module Arguments {
  import opened Wrappers

  type JobId = string

  /** A concrete value: what a job returns and what a reference is replaced by. */
  datatype Value =
    | NoneValue
    | BoolValue(b: bool)
    | IntValue(i: int)
    | StrValue(s: string)
    | ListValue(items: seq<Value>)

  datatype Arg =
    | Concrete(v: Value)
    | Future(id: JobId)
    | List(items: seq<Arg>)
    | Dict(entries: seq<Entry>)

  /** A keyword argument, or one item of a dictionary argument. */
  datatype Entry = Entry(key: string, val: Arg)

  // ---------------------------------------------------------------------------
  // Reference definition: every future reference, in depth-first order, repeats kept.

  function Occurrences(a: Arg): seq<JobId>
    decreases a, 1
  {
    match a
    case Concrete(_) => []
    case Future(id) => [id]
    case List(items) => OccurrencesIn(items)
    case Dict(entries) => OccurrencesInEntries(entries)
  }

  function OccurrencesIn(xs: seq<Arg>): seq<JobId>
    decreases xs, 0
  {
    if xs == [] then [] else Occurrences(xs[0]) + OccurrencesIn(xs[1..])
  }

  function OccurrencesInEntries(es: seq<Entry>): seq<JobId>
    decreases es, 0
  {
    if es == [] then [] else Occurrences(es[0].val) + OccurrencesInEntries(es[1..])
  }

  // ---------------------------------------------------------------------------
  // Ordered de-duplication.

  ghost predicate NoDuplicates(s: seq<JobId>) {
    forall i, j :: 0 <= i < j < |s| ==> s[i] != s[j]
  }

  /** The position of the first occurrence of `x` in `s`. */
  function FirstIndex(s: seq<JobId>, x: JobId): (k: nat)
    requires x in s
    ensures k < |s| && s[k] == x && x !in s[..k]
  {
    if s[0] == x then 0 else 1 + FirstIndex(s[1..], x)
  }

  /**
   * `r` lists every id of `occ` exactly once, ordered by where each id first
   * occurs in `occ`.
   */
  ghost predicate InFirstSeenOrder(r: seq<JobId>, occ: seq<JobId>) {
    && NoDuplicates(r)
    && (forall x :: x in r <==> x in occ)
    && (forall i, j :: 0 <= i < j < |r| && r[i] in occ && r[j] in occ ==>
          FirstIndex(occ, r[i]) < FirstIndex(occ, r[j]))
  }

  /** `seen` extended by each id of `occ` it does not hold yet, in the order met. */
  function AddNew(seen: seq<JobId>, occ: seq<JobId>): seq<JobId>
    decreases |occ|
  {
    if occ == [] then seen
    else AddNew(if occ[0] in seen then seen else seen + [occ[0]], occ[1..])
  }

  lemma {:induction false} AddNewOrder(seen: seq<JobId>, occ: seq<JobId>)
    requires NoDuplicates(seen)
    ensures var r := AddNew(seen, occ);
      && |seen| <= |r| && r[..|seen|] == seen
      && NoDuplicates(r)
      && (forall x :: x in r <==> x in seen || x in occ)
      && (forall i :: |seen| <= i < |r| ==> r[i] in occ && r[i] !in seen)
      && (forall i, j :: |seen| <= i < j < |r| && r[i] in occ && r[j] in occ ==>
            FirstIndex(occ, r[i]) < FirstIndex(occ, r[j]))
    decreases |occ|
  {
    if occ != [] {
      var h := occ[0];
      var seen' := if h in seen then seen else seen + [h];
      AddNewOrder(seen', occ[1..]);
      var r := AddNew(seen, occ);
      assert r == AddNew(seen', occ[1..]);
      assert r[..|seen'|] == seen';
      assert r[..|seen|] == seen by {
        assert r[..|seen|] == r[..|seen'|][..|seen|];
      }
      forall x | x in r
        ensures x in seen || x in occ
      {
        if x !in seen' && x !in occ[1..] {
          assert false;
        }
      }
      forall x | x in occ
        ensures x in r
      {
        if x != h {
          assert x in occ[1..];
        } else {
          assert x in seen';
          assert x in r[..|seen'|];
        }
      }
      forall i | |seen| <= i < |r|
        ensures r[i] in occ && r[i] !in seen
      {
        if i < |seen'| {
          assert r[i] == seen'[i] == h;
        } else {
          assert r[i] in occ[1..];
        }
      }
      forall i, j | |seen| <= i < j < |r| && r[i] in occ && r[j] in occ
        ensures FirstIndex(occ, r[i]) < FirstIndex(occ, r[j])
      {
        assert r[j] != h by {
          if h in seen {
            assert r[j] !in seen;
          } else {
            assert r[|seen|] == h;
          }
        }
        assert r[j] in occ[1..];
        if i < |seen'| {
          assert r[i] == h;
        } else {
          assert r[i] in occ[1..];
        }
      }
    }
  }

  lemma {:induction false} AddNewFromNothing(occ: seq<JobId>)
    ensures InFirstSeenOrder(AddNew([], occ), occ)
  {
    AddNewOrder([], occ);
  }

  /** De-duplicating a concatenation is de-duplicating its parts one after the other. */
  lemma {:induction false} AddNewConcat(seen: seq<JobId>, a: seq<JobId>, b: seq<JobId>)
    ensures AddNew(AddNew(seen, a), b) == AddNew(seen, a + b)
    decreases |a|
  {
    if a != [] {
      assert (a + b)[0] == a[0];
      assert (a + b)[1..] == a[1..] + b;
      AddNewConcat(if a[0] in seen then seen else seen + [a[0]], a[1..], b);
    } else {
      assert a + b == b;
    }
  }

  lemma NoDuplicatesPrefix(a: seq<JobId>, b: seq<JobId>)
    requires NoDuplicates(a + b)
    ensures NoDuplicates(a)
  {
    forall i, j | 0 <= i < j < |a|
      ensures a[i] != a[j]
    {
      assert (a + b)[i] == a[i] && (a + b)[j] == a[j];
    }
  }

  /** On ids that are already distinct, de-duplication keeps every id in place. */
  lemma {:induction false} AddNewDistinct(seen: seq<JobId>, occ: seq<JobId>)
    requires NoDuplicates(seen + occ)
    ensures AddNew(seen, occ) == seen + occ
    decreases |occ|
  {
    if occ != [] {
      forall k | 0 <= k < |seen|
        ensures seen[k] != occ[0]
      {
        assert (seen + occ)[k] == seen[k] && (seen + occ)[|seen|] == occ[0];
      }
      assert (seen + [occ[0]]) + occ[1..] == seen + occ;
      AddNewDistinct(seen + [occ[0]], occ[1..]);
    }
  }

  // ---------------------------------------------------------------------------
  // The scan performed at enqueue time: one depth-first pass that appends each
  // referenced id to the ids already collected unless it is there already.

  function Collect(a: Arg, seen: seq<JobId>): seq<JobId>
    decreases a, 1
  {
    match a
    case Concrete(_) => seen
    case Future(id) => if id in seen then seen else seen + [id]
    case List(items) => CollectIn(items, seen)
    case Dict(entries) => CollectInEntries(entries, seen)
  }

  function CollectIn(xs: seq<Arg>, seen: seq<JobId>): seq<JobId>
    decreases xs, 0
  {
    if xs == [] then seen else CollectIn(xs[1..], Collect(xs[0], seen))
  }

  function CollectInEntries(es: seq<Entry>, seen: seq<JobId>): seq<JobId>
    decreases es, 0
  {
    if es == [] then seen else CollectInEntries(es[1..], Collect(es[0].val, seen))
  }

  lemma {:induction false} CollectIsAddNew(a: Arg, seen: seq<JobId>)
    ensures Collect(a, seen) == AddNew(seen, Occurrences(a))
    decreases a, 1
  {
    match a
    case Concrete(_) =>
    case Future(id) =>
    case List(items) => CollectInIsAddNew(items, seen);
    case Dict(entries) => CollectInEntriesIsAddNew(entries, seen);
  }

  lemma {:induction false} CollectInIsAddNew(xs: seq<Arg>, seen: seq<JobId>)
    ensures CollectIn(xs, seen) == AddNew(seen, OccurrencesIn(xs))
    decreases xs, 0
  {
    if xs != [] {
      CollectIsAddNew(xs[0], seen);
      CollectInIsAddNew(xs[1..], Collect(xs[0], seen));
      AddNewConcat(seen, Occurrences(xs[0]), OccurrencesIn(xs[1..]));
    }
  }

  lemma {:induction false} CollectInEntriesIsAddNew(es: seq<Entry>, seen: seq<JobId>)
    ensures CollectInEntries(es, seen) == AddNew(seen, OccurrencesInEntries(es))
    decreases es, 0
  {
    if es != [] {
      CollectIsAddNew(es[0].val, seen);
      CollectInEntriesIsAddNew(es[1..], Collect(es[0].val, seen));
      AddNewConcat(seen, Occurrences(es[0].val), OccurrencesInEntries(es[1..]));
    }
  }

  /**
   * The ids of the jobs whose future results the positional arguments and then
   * the keyword arguments refer to, each once, in the order first met.
   */
  function ScanFutures(args: seq<Arg>, kwargs: seq<Entry>): (r: seq<JobId>)
    ensures InFirstSeenOrder(r, OccurrencesIn(args) + OccurrencesInEntries(kwargs))
  {
    CollectInIsAddNew(args, []);
    CollectInEntriesIsAddNew(kwargs, CollectIn(args, []));
    AddNewConcat([], OccurrencesIn(args), OccurrencesInEntries(kwargs));
    AddNewFromNothing(OccurrencesIn(args) + OccurrencesInEntries(kwargs));
    CollectInEntries(kwargs, CollectIn(args, []))
  }

  // ---------------------------------------------------------------------------
  // Explicit dependencies: a job, a job id, or a list mixing both.

  datatype JobRef = JobInstance(id: JobId) | JobIdString(id: JobId)

  datatype DependsOn = NoDependency | One(ref: JobRef) | Several(refs: seq<JobRef>)

  function DependencyIds(d: DependsOn): seq<JobId> {
    match d
    case NoDependency => []
    case One(ref) => [ref.id]
    case Several(refs) => seq(|refs|, i requires 0 <= i < |refs| => refs[i].id)
  }

  /**
   * The parents of a new job: the scanned references, then the explicit
   * dependencies, each id once, first occurrence kept.
   */
  function ParentIds(args: seq<Arg>, kwargs: seq<Entry>, d: DependsOn): (r: seq<JobId>)
    ensures InFirstSeenOrder(r, OccurrencesIn(args) + OccurrencesInEntries(kwargs) + DependencyIds(d))
  {
    var scanned := ScanFutures(args, kwargs);
    CollectInIsAddNew(args, []);
    CollectInEntriesIsAddNew(kwargs, CollectIn(args, []));
    AddNewConcat([], OccurrencesIn(args), OccurrencesInEntries(kwargs));
    AddNewConcat([], OccurrencesIn(args) + OccurrencesInEntries(kwargs), DependencyIds(d));
    AddNewFromNothing(OccurrencesIn(args) + OccurrencesInEntries(kwargs) + DependencyIds(d));
    AddNew(scanned, DependencyIds(d))
  }

  /**
   * When no job is referenced twice, the parents are the references in the
   * order written, then the explicit dependencies.
   */
  lemma ParentIdsDistinct(args: seq<Arg>, kwargs: seq<Entry>, d: DependsOn)
    requires NoDuplicates(OccurrencesIn(args) + OccurrencesInEntries(kwargs) + DependencyIds(d))
    ensures ScanFutures(args, kwargs) == OccurrencesIn(args) + OccurrencesInEntries(kwargs)
    ensures ParentIds(args, kwargs, d) == OccurrencesIn(args) + OccurrencesInEntries(kwargs) + DependencyIds(d)
  {
    var occ := OccurrencesIn(args) + OccurrencesInEntries(kwargs);
    CollectInIsAddNew(args, []);
    CollectInEntriesIsAddNew(kwargs, CollectIn(args, []));
    AddNewConcat([], OccurrencesIn(args), OccurrencesInEntries(kwargs));
    AddNewConcat([], occ, DependencyIds(d));
    assert [] + (occ + DependencyIds(d)) == occ + DependencyIds(d);
    AddNewDistinct([], occ + DependencyIds(d));
    NoDuplicatesPrefix(occ, DependencyIds(d));
    assert [] + occ == occ;
    AddNewDistinct([], occ);
  }

  // ---------------------------------------------------------------------------
  // Substitution of future results at perform time.

  /** The first id of `occ` that has no result in `results`, if any. */
  function FirstMissing(occ: seq<JobId>, results: map<JobId, Value>): (r: Option<JobId>)
    ensures r.None? <==> forall id :: id in occ ==> id in results
    ensures r.Some? ==> r.value in occ && r.value !in results
  {
    if occ == [] then None
    else if occ[0] !in results then Some(occ[0])
    else FirstMissing(occ[1..], results)
  }

  lemma {:induction false} FirstMissingConcat(a: seq<JobId>, b: seq<JobId>, results: map<JobId, Value>)
    ensures FirstMissing(a + b, results) ==
      if FirstMissing(a, results).Some? then FirstMissing(a, results) else FirstMissing(b, results)
    decreases |a|
  {
    if a == [] {
      assert a + b == b;
    } else {
      assert (a + b)[0] == a[0];
      assert (a + b)[1..] == a[1..] + b;
      FirstMissingConcat(a[1..], b, results);
    }
  }

  /**
   * `a` with every reference replaced by the referenced job's result; fails
   * with the first reference whose job has no result.
   */
  function Resolve(a: Arg, results: map<JobId, Value>): Result<Arg, JobId>
    decreases a, 1
  {
    match a
    case Concrete(_) => Ok(a)
    case Future(id) => if id in results then Ok(Concrete(results[id])) else Err(id)
    case List(items) =>
      var rs :- ResolveIn(items, results);
      Ok(List(rs))
    case Dict(entries) =>
      var es :- ResolveInEntries(entries, results);
      Ok(Dict(es))
  }

  function ResolveIn(xs: seq<Arg>, results: map<JobId, Value>): Result<seq<Arg>, JobId>
    decreases xs, 0
  {
    if xs == [] then Ok([])
    else
      var h :- Resolve(xs[0], results);
      var t :- ResolveIn(xs[1..], results);
      Ok([h] + t)
  }

  function ResolveInEntries(es: seq<Entry>, results: map<JobId, Value>): Result<seq<Entry>, JobId>
    decreases es, 0
  {
    if es == [] then Ok([])
    else
      var h :- Resolve(es[0].val, results);
      var t :- ResolveInEntries(es[1..], results);
      Ok([Entry(es[0].key, h)] + t)
  }

  /**
   * Substitution fails exactly when some reference has no result, and then
   * with the first such reference; when it succeeds no reference is left.
   */
  lemma {:induction false} ResolveSpec(a: Arg, results: map<JobId, Value>)
    ensures Resolve(a, results).Err? <==> FirstMissing(Occurrences(a), results).Some?
    ensures Resolve(a, results).Err? ==>
      Resolve(a, results).error == FirstMissing(Occurrences(a), results).value
    ensures Resolve(a, results).Ok? ==> Occurrences(Resolve(a, results).value) == []
    decreases a, 1
  {
    match a
    case Concrete(_) =>
    case Future(id) =>
    case List(items) => ResolveInSpec(items, results);
    case Dict(entries) => ResolveInEntriesSpec(entries, results);
  }

  lemma {:induction false} ResolveInSpec(xs: seq<Arg>, results: map<JobId, Value>)
    ensures ResolveIn(xs, results).Err? <==> FirstMissing(OccurrencesIn(xs), results).Some?
    ensures ResolveIn(xs, results).Err? ==>
      ResolveIn(xs, results).error == FirstMissing(OccurrencesIn(xs), results).value
    ensures ResolveIn(xs, results).Ok? ==>
      |ResolveIn(xs, results).value| == |xs| && OccurrencesIn(ResolveIn(xs, results).value) == []
    decreases xs, 0
  {
    if xs != [] {
      ResolveSpec(xs[0], results);
      ResolveInSpec(xs[1..], results);
      FirstMissingConcat(Occurrences(xs[0]), OccurrencesIn(xs[1..]), results);
      var r := ResolveIn(xs, results);
      if r.Ok? {
        var h := Resolve(xs[0], results).value;
        var t := ResolveIn(xs[1..], results).value;
        assert r.value == [h] + t;
        assert r.value[0] == h && r.value[1..] == t;
      }
    }
  }

  lemma {:induction false} ResolveInEntriesSpec(es: seq<Entry>, results: map<JobId, Value>)
    ensures ResolveInEntries(es, results).Err? <==> FirstMissing(OccurrencesInEntries(es), results).Some?
    ensures ResolveInEntries(es, results).Err? ==>
      ResolveInEntries(es, results).error == FirstMissing(OccurrencesInEntries(es), results).value
    ensures ResolveInEntries(es, results).Ok? ==>
      var r := ResolveInEntries(es, results).value;
      && |r| == |es|
      && (forall i :: 0 <= i < |es| ==> r[i].key == es[i].key)
      && OccurrencesInEntries(r) == []
    decreases es, 0
  {
    if es != [] {
      ResolveSpec(es[0].val, results);
      ResolveInEntriesSpec(es[1..], results);
      FirstMissingConcat(Occurrences(es[0].val), OccurrencesInEntries(es[1..]), results);
      var r := ResolveInEntries(es, results);
      if r.Ok? {
        var h := Resolve(es[0].val, results).value;
        var t := ResolveInEntries(es[1..], results).value;
        assert r.value == [Entry(es[0].key, h)] + t;
        assert r.value[0] == Entry(es[0].key, h) && r.value[1..] == t;
      }
    }
  }

  /** An argument without references is left exactly as it is. */
  lemma {:induction false} ResolveWithoutFutures(a: Arg, results: map<JobId, Value>)
    requires Occurrences(a) == []
    ensures Resolve(a, results) == Ok(a)
    decreases a, 1
  {
    match a
    case Concrete(_) =>
    case Future(id) =>
    case List(items) => ResolveInWithoutFutures(items, results);
    case Dict(entries) => ResolveInEntriesWithoutFutures(entries, results);
  }

  lemma {:induction false} ResolveInWithoutFutures(xs: seq<Arg>, results: map<JobId, Value>)
    requires OccurrencesIn(xs) == []
    ensures ResolveIn(xs, results) == Ok(xs)
    decreases xs, 0
  {
    if xs != [] {
      ResolveWithoutFutures(xs[0], results);
      ResolveInWithoutFutures(xs[1..], results);
      assert [xs[0]] + xs[1..] == xs;
    }
  }

  lemma {:induction false} ResolveInEntriesWithoutFutures(es: seq<Entry>, results: map<JobId, Value>)
    requires OccurrencesInEntries(es) == []
    ensures ResolveInEntries(es, results) == Ok(es)
    decreases es, 0
  {
    if es != [] {
      ResolveWithoutFutures(es[0].val, results);
      ResolveInEntriesWithoutFutures(es[1..], results);
      assert [Entry(es[0].key, es[0].val)] + es[1..] == es;
    }
  }

  // ---------------------------------------------------------------------------
  // What substitution puts in place: the same nesting, and the same leaves
  // with each reference replaced by the referenced job's result.

  /** The nesting of an argument with its leaves (values and references) forgotten. */
  datatype Shape = Leaf | ListShape(items: seq<Shape>) | DictShape(entries: seq<KeyShape>)

  datatype KeyShape = KeyShape(key: string, shape: Shape)

  function ShapeOf(a: Arg): Shape
    decreases a, 1
  {
    match a
    case Concrete(_) => Leaf
    case Future(_) => Leaf
    case List(items) => ListShape(ShapesIn(items))
    case Dict(entries) => DictShape(ShapesInEntries(entries))
  }

  function ShapesIn(xs: seq<Arg>): seq<Shape>
    decreases xs, 0
  {
    if xs == [] then [] else [ShapeOf(xs[0])] + ShapesIn(xs[1..])
  }

  function ShapesInEntries(es: seq<Entry>): seq<KeyShape>
    decreases es, 0
  {
    if es == [] then [] else [KeyShape(es[0].key, ShapeOf(es[0].val))] + ShapesInEntries(es[1..])
  }

  /** The leaves of an argument (values and references), depth-first. */
  function Leaves(a: Arg): seq<Arg>
    decreases a, 1
  {
    match a
    case Concrete(_) => [a]
    case Future(_) => [a]
    case List(items) => LeavesIn(items)
    case Dict(entries) => LeavesInEntries(entries)
  }

  function LeavesIn(xs: seq<Arg>): seq<Arg>
    decreases xs, 0
  {
    if xs == [] then [] else Leaves(xs[0]) + LeavesIn(xs[1..])
  }

  function LeavesInEntries(es: seq<Entry>): seq<Arg>
    decreases es, 0
  {
    if es == [] then [] else Leaves(es[0].val) + LeavesInEntries(es[1..])
  }

  /** A leaf with a reference that has a result replaced by that result. */
  function ReplaceLeaf(l: Arg, results: map<JobId, Value>): Arg {
    if l.Future? && l.id in results then Concrete(results[l.id]) else l
  }

  function ReplaceLeaves(ls: seq<Arg>, results: map<JobId, Value>): (r: seq<Arg>)
    ensures |r| == |ls|
  {
    if ls == [] then [] else [ReplaceLeaf(ls[0], results)] + ReplaceLeaves(ls[1..], results)
  }

  lemma {:induction false} ReplaceLeavesConcat(a: seq<Arg>, b: seq<Arg>, results: map<JobId, Value>)
    ensures ReplaceLeaves(a + b, results) == ReplaceLeaves(a, results) + ReplaceLeaves(b, results)
    decreases |a|
  {
    if a == [] {
      assert a + b == b;
    } else {
      assert (a + b)[0] == a[0] && (a + b)[1..] == a[1..] + b;
      ReplaceLeavesConcat(a[1..], b, results);
    }
  }

  /**
   * A successful substitution keeps the argument's nesting and replaces each
   * leaf reference by the referenced job's result, leaving values as they are.
   */
  lemma {:induction false} ResolveReplaces(a: Arg, results: map<JobId, Value>)
    ensures Resolve(a, results).Ok? ==>
      && ShapeOf(Resolve(a, results).value) == ShapeOf(a)
      && Leaves(Resolve(a, results).value) == ReplaceLeaves(Leaves(a), results)
    decreases a, 1
  {
    match a
    case Concrete(_) =>
    case Future(id) =>
    case List(items) => ResolveInReplaces(items, results);
    case Dict(entries) => ResolveInEntriesReplaces(entries, results);
  }

  lemma {:induction false} ResolveInReplaces(xs: seq<Arg>, results: map<JobId, Value>)
    ensures ResolveIn(xs, results).Ok? ==>
      && ShapesIn(ResolveIn(xs, results).value) == ShapesIn(xs)
      && LeavesIn(ResolveIn(xs, results).value) == ReplaceLeaves(LeavesIn(xs), results)
    decreases xs, 0
  {
    if xs != [] && ResolveIn(xs, results).Ok? {
      ResolveReplaces(xs[0], results);
      ResolveInReplaces(xs[1..], results);
      ReplaceLeavesConcat(Leaves(xs[0]), LeavesIn(xs[1..]), results);
      var r := ResolveIn(xs, results).value;
      var h := Resolve(xs[0], results).value;
      var t := ResolveIn(xs[1..], results).value;
      assert r == [h] + t;
      assert r != [] && r[0] == h && r[1..] == t;
    }
  }

  lemma {:induction false} ResolveInEntriesReplaces(es: seq<Entry>, results: map<JobId, Value>)
    ensures ResolveInEntries(es, results).Ok? ==>
      && ShapesInEntries(ResolveInEntries(es, results).value) == ShapesInEntries(es)
      && LeavesInEntries(ResolveInEntries(es, results).value) == ReplaceLeaves(LeavesInEntries(es), results)
    decreases es, 0
  {
    if es != [] && ResolveInEntries(es, results).Ok? {
      ResolveReplaces(es[0].val, results);
      ResolveInEntriesReplaces(es[1..], results);
      ReplaceLeavesConcat(Leaves(es[0].val), LeavesInEntries(es[1..]), results);
      var r := ResolveInEntries(es, results).value;
      var h := Resolve(es[0].val, results).value;
      var t := ResolveInEntries(es[1..], results).value;
      assert r == [Entry(es[0].key, h)] + t;
      assert r != [] && r[0] == Entry(es[0].key, h) && r[1..] == t;
    }
  }

  /** Substitution in a whole call: positional arguments first, then keyword arguments. */
  function ResolveCall(args: seq<Arg>, kwargs: seq<Entry>, results: map<JobId, Value>)
    : Result<(seq<Arg>, seq<Entry>), JobId>
  {
    var a :- ResolveIn(args, results);
    var k :- ResolveInEntries(kwargs, results);
    Ok((a, k))
  }

  /**
   * A call's references resolve exactly when every scanned parent has a
   * result; otherwise the failure names the first parent, in scan order,
   * that has none.
   */
  lemma ResolveCallNeedsParents(args: seq<Arg>, kwargs: seq<Entry>, results: map<JobId, Value>)
    ensures ResolveCall(args, kwargs, results).Ok? <==>
      forall p :: p in ScanFutures(args, kwargs) ==> p in results
    ensures ResolveCall(args, kwargs, results).Err? ==>
      var occ := OccurrencesIn(args) + OccurrencesInEntries(kwargs);
      var p := ResolveCall(args, kwargs, results).error;
      && p in ScanFutures(args, kwargs) && p !in results
      && forall q :: q in occ && FirstIndex(occ, q) < FirstIndex(occ, p) ==> q in results
  {
    var occ := OccurrencesIn(args) + OccurrencesInEntries(kwargs);
    var scanned := ScanFutures(args, kwargs);
    ResolveInSpec(args, results);
    ResolveInEntriesSpec(kwargs, results);
    FirstMissingConcat(OccurrencesIn(args), OccurrencesInEntries(kwargs), results);
    var r := ResolveCall(args, kwargs, results);
    assert r.Err? <==> FirstMissing(occ, results).Some?;
    if r.Err? {
      assert r.error == FirstMissing(occ, results).value;
      FirstMissingIsFirst(occ, results);
    }
  }

  /** A call without references resolves to itself. */
  lemma ResolveCallWithoutFutures(args: seq<Arg>, kwargs: seq<Entry>, results: map<JobId, Value>)
    requires OccurrencesIn(args) == [] && OccurrencesInEntries(kwargs) == []
    ensures ResolveCall(args, kwargs, results) == Ok((args, kwargs))
  {
    ResolveInWithoutFutures(args, results);
    ResolveInEntriesWithoutFutures(kwargs, results);
  }

  /**
   * A resolved call has the positional and keyword arguments of the original
   * call, nested alike and under the same names, with every reference
   * replaced by the referenced job's result.
   */
  lemma ResolveCallReplaces(args: seq<Arg>, kwargs: seq<Entry>, results: map<JobId, Value>)
    ensures ResolveCall(args, kwargs, results).Ok? ==>
      var (a, k) := ResolveCall(args, kwargs, results).value;
      && ShapesIn(a) == ShapesIn(args) && LeavesIn(a) == ReplaceLeaves(LeavesIn(args), results)
      && ShapesInEntries(k) == ShapesInEntries(kwargs)
      && LeavesInEntries(k) == ReplaceLeaves(LeavesInEntries(kwargs), results)
  {
    ResolveInReplaces(args, results);
    ResolveInEntriesReplaces(kwargs, results);
  }

  lemma {:induction false} FirstMissingIsFirst(occ: seq<JobId>, results: map<JobId, Value>)
    requires FirstMissing(occ, results).Some?
    ensures var p := FirstMissing(occ, results).value;
      forall q :: q in occ && FirstIndex(occ, q) < FirstIndex(occ, p) ==> q in results
  {
    var p := FirstMissing(occ, results).value;
    if occ[0] in results {
      FirstMissingIsFirst(occ[1..], results);
      forall q | q in occ && FirstIndex(occ, q) < FirstIndex(occ, p)
        ensures q in results
      {
        if q != occ[0] {
          assert q in occ[1..];
        }
      }
    }
  }
}
