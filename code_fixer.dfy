/**
 * `fix_code`: ask the model for a revised implementation, record a snapshot of the state
 * before the change, count the repair, and replace the code.
 */
module CodeFixer {
  import opened Wrappers
  import opened Json
  import opened Utils
  import opened Replies
  import opened State

  /** The extras of the fixer's snapshot: the event and the analysis being answered. */
  function FixExtras(previous: Json): map<string, Json> {
    map["event" := JStr("fix_code"), "previous_error_analysis" := previous]
  }

  /**
   * The fixer's history entry keeps the pre-fix iteration, says the code was present, and
   * names the event and the analysis it answers.
   */
  lemma FixSnapshot(iteration: int, spec: string, hasTests: bool, previous: Json)
    ensures var entry := SnapshotOf(iteration, spec, true, hasTests, FixExtras(previous));
      && entry["event"] == JStr("fix_code")
      && entry["previous_error_analysis"] == previous
      && entry["iteration"] == JNum(iteration)
      && entry["has_code"] == JBool(true)
      && entry["has_tests"] == JBool(hasTests)
      && entry["spec"] == JStr(spec)
  {
  }

  /**
   * Without code or without an analysis the state is left exactly as it was. Otherwise one
   * snapshot is appended (before the increment, with the analysis at entry), the iteration
   * goes up by one and the code becomes the stripped text of the reply; the tests, the test
   * results and the analysis stay as they were.
   */
  method FixCode(state: AgentState, reply: Content)
    modifies state`history, state`iteration, state`code
    ensures old(state.code).None? || state.errorAnalysis == JNull ==>
              && state.history == old(state.history)
              && state.iteration == old(state.iteration)
              && state.code == old(state.code)
    ensures old(state.code).Some? && state.errorAnalysis != JNull ==>
              && state.history == old(state.history) +
                   [SnapshotOf(old(state.iteration), state.spec, true, state.tests.Some?, FixExtras(state.errorAnalysis))]
              && state.iteration == old(state.iteration) + 1
              && state.code == Some(StripMarkdown(TextOf(reply)))
  {
    if state.code.None? || state.errorAnalysis == JNull {
      return;
    }
    var newCode := TextOf(reply);
    state.RecordSnapshot(FixExtras(state.errorAnalysis));
    state.IncrementIteration();
    state.code := Some(StripMarkdown(newCode));
  }

}
