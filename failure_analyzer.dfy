/**
 * `analyze_failures`: exit code 0 is a success decided locally; any other exit code asks
 * the model for an explanation and stores whatever it decodes to.
 */
module FailureAnalyzer {
  import opened Wrappers
  import opened Json
  import opened Utils
  import opened Recovery
  import opened State
  import TestRunner

  /** The record stored when the tests passed. */
  function SuccessRecord(): (r: Json)
    ensures r.JObj? && "status" in r.fields && r.fields["status"] == JStr("success")
  {
    JObj(map["status" := JStr("success"), "summary" := JStr("All tests passed.")])
  }

  /** `(state.test_results or {}).get("exit_code", 1)`: absent results or key count as 1. */
  function ExitCode(results: Option<map<string, Json>>): (code: Json)
    ensures results.None? ==> code == JNum(1)
    ensures results.Some? && "exit_code" !in results.value ==> code == JNum(1)
    ensures results.Some? && "exit_code" in results.value ==> code == results.value["exit_code"]
  {
    var r := if results.Some? then results.value else map[];
    if "exit_code" in r then r["exit_code"] else JNum(1)
  }

  /** `exit_code == 0` */
  predicate Passed(results: Option<map<string, Json>>) {
    EqualsInt(ExitCode(results), 0)
  }

  /** A run reports a pass exactly when the process exited with 0. */
  lemma PassedIffExitZero(p: TestRunner.Process)
    ensures Passed(Some(TestRunner.ResultRecord(p))) <==> p.returncode == 0
  {
  }

  /** The record for missing code or tests carries no exit code and so counts as a failure. */
  lemma MissingInputsFail()
    ensures !Passed(Some(TestRunner.MissingRecord()))
    ensures !Passed(None)
  {
  }

  /**
   * On a pass, the success record is stored and the model is not asked. Otherwise the
   * stripped reply is decoded and stored unchecked (its "status" included), or
   * `{"raw": <stripped reply>}` when it does not decode. Only `error_analysis` changes.
   */
  method AnalyzeFailures(state: AgentState, reply: string, decode: Decoder) returns (askedModel: bool)
    modifies state`errorAnalysis
    ensures askedModel <==> !Passed(state.testResults)
    ensures !askedModel ==> state.errorAnalysis == SuccessRecord()
    ensures askedModel ==> state.errorAnalysis == StripThenDecode(decode, reply)
  {
    var exitCode := ExitCode(state.testResults);
    if EqualsInt(exitCode, 0) {
      state.errorAnalysis := SuccessRecord();
      return false;
    }
    var content := StripMarkdown(reply);
    var analysis := DecodeOrRaw(decode, content);
    state.errorAnalysis := analysis;
    return true;
  }

}
