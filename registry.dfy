/** The plugin registry and the orchestrator that runs every registered check
    (scanner/registry.go).

    Go keeps the registry in a package-level map written by each plugin's
    init(); here it is an object handed to whoever registers or scans. The
    checks run in goroutines that each write their own key under a mutex, so
    the map they build is the one a loop over the registry builds in any
    order; `RunAll` picks its keys in an arbitrary order to say exactly that. */
module Registry {
  import opened Http

  /** How a call to a check ended: it returned a value, or it panicked with a message. */
  datatype Execution = Returned(value: Value) | Panicked(detail: string)

  /** A check, applied to the normalised target URL (the context argument is left out). */
  type Check = string -> Execution

  datatype CheckDefinition = CheckDefinition(name: string, description: string, execute: Check)

  const CrashPrefix := "Plugin execution crashed: "

  /** The entry a finished check leaves in the result map: its value, or, when it
      panicked, the error map the recovering defer writes in its place. */
  function Settle(e: Execution): Value {
    match e
    case Returned(v) => v
    case Panicked(detail) => ErrorMap(CrashPrefix + detail)
  }

  /** The result map RunAllChecks builds for `url` from the registry `checks`. */
  function Outcomes(checks: map<string, CheckDefinition>, url: string): (results: map<string, Value>)
    ensures results.Keys == checks.Keys
    ensures forall k :: k in checks && checks[k].execute(url).Returned? ==>
      results[k] == checks[k].execute(url).value
    ensures forall k :: k in checks && checks[k].execute(url).Panicked? ==>
      results[k] == ErrorMap(CrashPrefix + checks[k].execute(url).detail)
  {
    map k | k in checks :: Settle(checks[k].execute(url))
  }

  /** A check that panics changes its own entry and no other. */
  lemma CrashIsIsolated(checks: map<string, CheckDefinition>, url: string, k: string, crash: Check)
    requires k in checks && crash(url).Panicked?
    ensures var after := Outcomes(checks[k := checks[k].(execute := crash)], url);
      && after.Keys == Outcomes(checks, url).Keys
      && after[k] == ErrorMap(CrashPrefix + crash(url).detail)
      && forall j :: j in checks && j != k ==> after[j] == Outcomes(checks, url)[j]
  {
  }

  /** Registering a name that is already present replaces its entry: the registry does not grow. */
  lemma {:induction false} ReRegisterKeepsSize(checks: map<string, CheckDefinition>, def: CheckDefinition)
    requires def.name in checks
    ensures |checks[def.name := def]| == |checks|
  {
    assert checks[def.name := def].Keys == checks.Keys;
  }

  class CheckRegistry {
    var checks: map<string, CheckDefinition>

    /** Every definition is filed under its own name. */
    ghost predicate Valid()
      reads this
    {
      forall k :: k in checks ==> checks[k].name == k
    }

    constructor ()
      ensures Valid() && checks == map[]
    {
      checks := map[];
    }

    /** RegisterCheck: file a definition under `name`; the last registration of a name wins. */
    method Register(name: string, description: string, execute: Check)
      requires Valid()
      modifies this
      ensures Valid()
      ensures checks == old(checks)[name := CheckDefinition(name, description, execute)]
      ensures forall k :: k in old(checks) && k != name ==> checks[k] == old(checks)[k]
    {
      checks := checks[name := CheckDefinition(name, description, execute)];
    }

    /** RunAllChecks: run every registered check on the same `url` and gather one entry per name. */
    method RunAll(url: string) returns (results: map<string, Value>)
      ensures results == Outcomes(checks, url)
    {
      results := map[];
      var pending := checks.Keys;
      while pending != {}
        invariant pending <= checks.Keys
        invariant results.Keys == checks.Keys - pending
        invariant forall k :: k in results ==> results[k] == Settle(checks[k].execute(url))
        decreases pending
      {
        var k :| k in pending;
        var outcome := checks[k].execute(url);
        match outcome {
          case Returned(v) =>
            results := results[k := v];
          case Panicked(detail) =>
            results := results[k := ErrorMap(CrashPrefix + detail)];
        }
        pending := pending - {k};
      }
    }
  }
}
