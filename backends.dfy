/** Execution backends for trajectory analysis: a backend is constructed with
    a worker count, validates itself at construction (raising `ValueError` for
    a failed check, warning for a failed soft check), and then maps a function
    over a list of independent computations, preserving their order.

    The four classes of the source (the abstract base, serial, multiprocessing
    and dask) are the four variants of `Kind`; each method dispatches on the
    variant the way Python dispatches on the subclass. Checks and warnings are
    dicts from a boolean condition to a message, kept as the insertion-ordered
    list of their items. */
module Backends {
  import opened Wrappers
  import opened PyValues
  import opened PyDict

  datatype Kind = Base | Serial | Multiprocessing | Dask

  const DaskMissingMessage: string :=
    "module 'dask' should be installed:https://docs.dask.org/en/stable/install.html"

  const SerialIgnoredMessage: string :=
    "n_workers is ignored when executing with backend='serial'"

  /** The f-string `f"n_workers should be positive integer, got {self.n_workers=}"`. */
  function WorkersMessage(n: Value): string {
    "n_workers should be positive integer, got self.n_workers=" + Repr(n)
  }

  /** `isinstance(n, int) and n > 0`; `True` is an `int` equal to 1. */
  predicate PositiveInt(n: Value) {
    IsInt(n) && IntOf(n) > 0
  }

  /** `BackendBase._get_checks`: one entry keyed by the worker-count condition. */
  function BaseChecks(n: Value): Dict<bool, string> {
    [(PositiveInt(n), WorkersMessage(n))]
  }

  /** `self._get_checks()` for the backend class `kind`, with the probe
      `is_installed("dask")` given as `daskInstalled`. The dask backend
      merges its own entry into the base ones with `|`: both keys are
      booleans, so when the two conditions agree the merged dict holds a
      single entry carrying the dask message. */
  function Checks(kind: Kind, n: Value, daskInstalled: bool): Dict<bool, string> {
    if kind == Dask then Union(BaseChecks(n), [(daskInstalled, DaskMissingMessage)])
    else BaseChecks(n)
  }

  /** `self._get_warnings()` for every backend class: the base method's empty
      dict, since the serial backend's override is spelt `_get_warnigns` and
      is never called. */
  function Warnings(kind: Kind, n: Value): Dict<bool, string> {
    []
  }

  /** An element of the set literal `BackendSerial._get_warnigns` builds. */
  datatype SetItem = Flag(b: bool) | Text(s: string)

  /** `BackendSerial._get_warnigns`: a two-element set (not a dict) of the
      comparison `n_workers > 1` and the message; comparing a non-integer
      with 1 raises `TypeError`. Validation never calls it. */
  function SerialGetWarnigns(n: Value): Result<set<SetItem>, Exception> {
    if IsInt(n) then Success({Flag(IntOf(n) > 1), Text(SerialIgnoredMessage)}) else Failure(TypeError)
  }

  /** The serial warning as a `condition: message` dict named
      `_get_warnings`, the form the base class reads: good usage is a single
      worker, so the message is reported when `n_workers > 1`. Validation
      reaches the warnings only once the checks have made `n_workers` an
      `int`. */
  function IntendedWarnings(kind: Kind, n: Value): Dict<bool, string>
    requires IsInt(n)
  {
    if kind == Serial then [(!(IntOf(n) > 1), SerialIgnoredMessage)] else []
  }

  predicate AllPass(d: Dict<bool, string>) {
    forall i :: 0 <= i < |d| ==> d[i].0
  }

  /** The message of the first entry whose condition is false, if any: what
      the first loop of `_validate` raises. */
  function FirstFailure(d: Dict<bool, string>): (r: Option<string>)
    ensures r.None? <==> AllPass(d)
    ensures r.Some? ==> exists i :: 0 <= i < |d| && !d[i].0 && d[i].1 == r.value && forall j :: 0 <= j < i ==> d[j].0
  {
    if d == [] then None
    else if !d[0].0 then Some(d[0].1)
    else
      var r := FirstFailure(d[1..]);
      assert forall j :: 1 <= j < |d| ==> d[j] == d[1..][j - 1];
      r
  }

  /** The messages of all entries whose condition is false, in order: what the
      second loop of `_validate` warns. */
  function FailedMessages(d: Dict<bool, string>): (r: seq<string>)
    ensures |r| <= |d|
    ensures r == [] <==> AllPass(d)
    ensures forall i :: 0 <= i < |d| && !d[i].0 ==> d[i].1 in r
    ensures forall m :: m in r ==> exists i :: 0 <= i < |d| && !d[i].0 && d[i].1 == m
  {
    if d == [] then []
    else
      var init := d[..|d| - 1];
      assert forall j :: 0 <= j < |d| - 1 ==> d[j] == init[j];
      FailedMessages(init) + (if d[|d| - 1].0 then [] else [d[|d| - 1].1])
  }

  /** `[func(task) for task in computations]`. */
  function SerialApply<A, B>(f: A -> B, computations: seq<A>): (r: seq<B>)
    ensures |r| == |computations|
    ensures forall i :: 0 <= i < |r| ==> r[i] == f(computations[i])
  {
    if computations == [] then []
    else [f(computations[0])] + SerialApply(f, computations[1..])
  }

  /** `_validate` over the dicts `checks` and `warnings` the backend's
      `_get_checks()` and `_get_warnings()` return: every check is looked at
      before any warning; the first false check raises `ValueError` with its
      message, and only when all pass is each false warning condition
      reported, in dict order. `emitted` is the sequence of messages handed to
      `warnings.warn`. */
  method Validate(checks: Dict<bool, string>, warnings: Dict<bool, string>)
    returns (outcome: Outcome<Exception>, ghost emitted: seq<string>)
    ensures outcome.Pass? <==> AllPass(checks)
    ensures outcome.Fail? ==> (outcome.error.ValueError? && FirstFailure(checks) == Some(outcome.error.message))
    ensures outcome.Fail? ==> emitted == []
    ensures outcome.Pass? ==> emitted == FailedMessages(warnings)
  {
    for i := 0 to |checks|
      invariant FirstFailure(checks) == FirstFailure(checks[i..])
    {
      if !checks[i].0 {
        return Fail(ValueError(checks[i].1)), [];
      }
      assert checks[i..][1..] == checks[i + 1..];
    }
    emitted := [];
    for i := 0 to |warnings|
      invariant emitted == FailedMessages(warnings[..i])
    {
      assert warnings[..i + 1][..i] == warnings[..i];
      if !warnings[i].0 {
        emitted := emitted + [warnings[i].1];
      }
    }
    assert warnings[..|warnings|] == warnings;
    outcome := Pass;
  }

  class Backend {
    const kind: Kind
    var nWorkers: Value
    /** The probe `is_installed("dask")` as it answered when the backend was
        validated. */
    const daskInstalled: bool

    /** The assignment `self.n_workers = n_workers` that starts `__init__`. */
    constructor (kind: Kind, nWorkers: Value, daskInstalled: bool)
      ensures this.kind == kind && this.nWorkers == nWorkers && this.daskInstalled == daskInstalled
    {
      this.kind := kind;
      this.nWorkers := nWorkers;
      this.daskInstalled := daskInstalled;
    }

    /** Every check of the backend holds: the state `__init__` leaves an
        instance in when it does not raise. */
    ghost predicate Valid()
      reads this
    {
      AllPass(Checks(kind, nWorkers, daskInstalled))
    }

    /** `apply(func, computations)` on a constructed backend: the base class
        raises `NotImplementedError`; every concrete backend returns
        `[func(x) for x in computations]`, in input order, with a positive
        worker count for the pool and dask present for the dask backend. */
    method Apply<A, B>(f: A -> B, computations: seq<A>) returns (r: Result<seq<B>, Exception>)
      requires Valid()
      ensures r.Failure? <==> kind == Base
      ensures r.Failure? ==> r.error == NotImplementedError
      ensures r.Success? ==> |r.value| == |computations|
      ensures r.Success? ==> forall i :: 0 <= i < |computations| ==> r.value[i] == f(computations[i])
      ensures r.Success? ==> PositiveInt(nWorkers) && (kind == Dask ==> daskInstalled)
    {
      match kind
      case Base =>
        r := Failure(NotImplementedError);
      case Serial =>
        BaseCheckIffPositive(kind, nWorkers, daskInstalled);
        r := Success(SerialApply(f, computations));
      case Multiprocessing =>
        BaseCheckIffPositive(kind, nWorkers, daskInstalled);
        // Pool(processes=n_workers).map(func, computations)
        r := Success(SerialApply(f, computations));
      case Dask =>
        DaskValidIff(nWorkers, daskInstalled);
        // dask.compute([delayed(func)(task) for task in computations], ...)[0]
        r := Success(SerialApply(f, computations));
    }
  }

  /** `BackendX(n_workers)`: store the worker count, then validate; a failed
      check surfaces as the `ValueError` the constructor raises, and no
      backend is obtained. */
  method Construct(kind: Kind, nWorkers: Value, daskInstalled: bool)
    returns (r: Result<Backend, Exception>, ghost emitted: seq<string>)
    ensures r.Success? <==> AllPass(Checks(kind, nWorkers, daskInstalled))
    ensures r.Failure? ==>
      (r.error.ValueError? && FirstFailure(Checks(kind, nWorkers, daskInstalled)) == Some(r.error.message))
    ensures r.Success? ==>
      (fresh(r.value) && r.value.kind == kind && r.value.nWorkers == nWorkers
       && r.value.daskInstalled == daskInstalled && r.value.Valid())
    ensures emitted == []
  {
    var backend := new Backend(kind, nWorkers, daskInstalled);
    var outcome;
    outcome, emitted := Validate(Checks(backend.kind, backend.nWorkers, backend.daskInstalled),
                                 Warnings(backend.kind, backend.nWorkers));
    if outcome.Fail? {
      return Failure(outcome.error), emitted;
    }
    r := Success(backend);
  }

  // ---------------------------------------------------------------------------
  // Properties of the validation rules

  /** For every backend but dask, construction succeeds exactly for a positive
      `int` (`True` included) and otherwise raises the worker-count message. */
  lemma BaseCheckIffPositive(kind: Kind, n: Value, daskInstalled: bool)
    requires kind != Dask
    ensures AllPass(Checks(kind, n, daskInstalled)) <==> (n.PyInt? && n.i > 0) || n == PyBool(true)
    ensures !PositiveInt(n) ==> FirstFailure(Checks(kind, n, daskInstalled)) == Some(WorkersMessage(n))
  {
    assert Checks(kind, n, daskInstalled)[0].0 == PositiveInt(n);
  }

  /** The dask checks after the merge: one entry when both conditions have the
      same truth value, otherwise the base entry followed by the dask one. */
  lemma DaskChecksCollapse(n: Value, daskInstalled: bool)
    ensures Checks(Dask, n, daskInstalled) ==
      if PositiveInt(n) == daskInstalled then [(daskInstalled, DaskMissingMessage)]
      else [(PositiveInt(n), WorkersMessage(n)), (daskInstalled, DaskMissingMessage)]
  {
    var entry := [(daskInstalled, DaskMissingMessage)];
    var merged := Put(BaseChecks(n), daskInstalled, DaskMissingMessage);
    assert Union(BaseChecks(n), entry) == Union(merged, []) == merged;
    assert BaseChecks(n)[1..] == [];
  }

  /** Every backend's checks form a dict with at most two entries. */
  lemma ChecksAtMostTwo(kind: Kind, n: Value, daskInstalled: bool)
    ensures KeysUnique(Checks(kind, n, daskInstalled))
    ensures |Checks(kind, n, daskInstalled)| <= 2
  {
    var d := Checks(kind, n, daskInstalled);
    assert KeysUnique(BaseChecks(n));
    assert KeysUnique([(daskInstalled, DaskMissingMessage)]);
    BoolKeyedAtMostTwo(d);
  }

  /** The dask backend is constructed exactly when the worker count is a
      positive `int` and dask is installed. */
  lemma DaskValidIff(n: Value, daskInstalled: bool)
    ensures AllPass(Checks(Dask, n, daskInstalled)) <==> PositiveInt(n) && daskInstalled
  {
    DaskChecksCollapse(n, daskInstalled);
  }

  /** Which message a failing dask construction raises: when both checks fail
      the merged dict holds only the dask entry, so the worker-count message
      is lost. */
  lemma DaskFailureMessage(n: Value, daskInstalled: bool)
    ensures !daskInstalled ==> FirstFailure(Checks(Dask, n, daskInstalled)) == Some(DaskMissingMessage)
    ensures daskInstalled && !PositiveInt(n) ==>
      FirstFailure(Checks(Dask, n, daskInstalled)) == Some(WorkersMessage(n))
  {
    DaskChecksCollapse(n, daskInstalled);
  }

  /** A serial backend asked for several workers: the misspelt method's set
      does hold the condition `n_workers > 1` as true, yet validation reads
      the base class's empty warnings, so nothing is reported. */
  lemma SerialWarningLost(n: Value)
    requires IsInt(n) && IntOf(n) > 1
    ensures SerialGetWarnigns(n) == Success({Flag(true), Text(SerialIgnoredMessage)})
    ensures FailedMessages(Warnings(Serial, n)) == []
  {
  }

  /** With the warning written as a `_get_warnings` dict, a serial backend
      that passed its checks reports the ignored worker count exactly when
      it was asked for more than one worker, and no other backend warns. */
  lemma {:induction false} IntendedSerialWarns(kind: Kind, n: Value, daskInstalled: bool)
    requires AllPass(Checks(kind, n, daskInstalled))
    ensures IsInt(n)
    ensures FailedMessages(IntendedWarnings(kind, n)) ==
      if kind == Serial && IntOf(n) > 1 then [SerialIgnoredMessage] else []
  {
    if kind == Dask {
      DaskValidIff(n, daskInstalled);
    } else {
      BaseCheckIffPositive(kind, n, daskInstalled);
    }
    var d := IntendedWarnings(kind, n);
    if d != [] {
      assert d[..|d| - 1] == [];
    }
  }
}
