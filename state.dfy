/**
 * `AgentState`: the one record threaded through every stage of a run, updated in place,
 * with its two mutators.
 */
module State {
  import opened Wrappers
  import opened Json

  /** The keys every history entry carries before the caller's extras are merged in. */
  const BaseKeys: set<string> := {"iteration", "spec", "has_code", "has_tests"}

  /**
   * One history entry: the lightweight metadata of the state, then the caller's extras
   * merged over it (`dict.update`), so an extra with a base key overrides the base value.
   */
  function SnapshotOf(iteration: int, spec: string, hasCode: bool, hasTests: bool,
                      extra: map<string, Json>): (entry: map<string, Json>)
    ensures entry.Keys == BaseKeys + extra.Keys
    ensures forall k :: k in extra ==> entry[k] == extra[k]
    ensures "iteration" !in extra ==> entry["iteration"] == JNum(iteration)
    ensures "spec" !in extra ==> entry["spec"] == JStr(spec)
    ensures "has_code" !in extra ==> entry["has_code"] == JBool(hasCode)
    ensures "has_tests" !in extra ==> entry["has_tests"] == JBool(hasTests)
  {
    var base := map["iteration" := JNum(iteration), "spec" := JStr(spec),
                    "has_code" := JBool(hasCode), "has_tests" := JBool(hasTests)];
    base + extra
  }

  class AgentState {
    /** The natural-language specification; no stage reassigns it. */
    const spec: string
    /** Structured specification; the parse stage overwrites it. */
    var parsedSpec: Json
    /** The implementation under test, `None` until generated. */
    var code: Option<string>
    /** The pytest module, `None` until generated. */
    var tests: Option<string>
    /** The last test run's record (`None` before the first run). */
    var testResults: Option<map<string, Json>>
    /** The last analysis; `JNull` is `None`, and any decoded JSON may be stored here. */
    var errorAnalysis: Json
    /** The repair counter. */
    var iteration: int
    /** The repair budget; no stage reassigns it. */
    const maxIterations: int
    /** The append-only audit trail. */
    var history: seq<map<string, Json>>

    /** `AgentState(spec=..., max_iterations=...)`: every other field at its default. */
    constructor (spec: string, maxIterations: int := 5)
      ensures this.spec == spec && this.maxIterations == maxIterations
      ensures parsedSpec == JObj(map[]) && code == None && tests == None
      ensures testResults == None && errorAnalysis == JNull
      ensures iteration == 0 && history == []
    {
      this.spec := spec;
      this.maxIterations := maxIterations;
      parsedSpec := JObj(map[]);
      code := None;
      tests := None;
      testResults := None;
      errorAnalysis := JNull;
      iteration := 0;
      history := [];
    }

    /** `increment_iteration`: one more repair, nothing else touched. */
    method IncrementIteration()
      modifies this`iteration
      ensures iteration == old(iteration) + 1
    {
      iteration := iteration + 1;
    }

    /**
     * `record_snapshot(**extra)`: appends exactly one entry describing the current state;
     * the earlier entries stay as they were, in order, and no other field changes.
     */
    method RecordSnapshot(extra: map<string, Json>)
      modifies this`history
      ensures history == old(history) + [SnapshotOf(iteration, spec, code.Some?, tests.Some?, extra)]
    {
      var snapshot := map["iteration" := JNum(iteration), "spec" := JStr(spec),
                          "has_code" := JBool(code.Some?), "has_tests" := JBool(tests.Some?)];
      snapshot := snapshot + extra;
      history := history + [snapshot];
    }
  }

}
