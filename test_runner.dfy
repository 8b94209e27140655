/**
 * `run_tests`: write the code and the tests into a fresh temporary directory and run pytest
 * on the test file there. The process is an oracle: its exit code and captured output are a
 * parameter; the directory is represented by the files written into it.
 */
module TestRunner {
  import opened Wrappers
  import opened Json
  import opened State
  import TestGenerator

  /** The implementation file; its module name is the one the generated tests import. */
  const ImplFile: string := "impl.py"
  /** The test file, which pytest is pointed at. */
  const TestFile: string := "test_impl.py"
  const MissingReason: string := "Missing code or tests before running test_runner."

  /** What `subprocess.run` reports: exit status and the captured streams. */
  datatype Process = Process(returncode: int, stdout: string, stderr: string)

  /** One sandboxed run: the files in the temporary directory and the file pytest runs. */
  datatype Sandbox = Sandbox(files: map<string, string>, target: string)

  /** The record stored when code or tests are missing; it has no "exit_code". */
  function MissingRecord(): (r: map<string, Json>)
    ensures "exit_code" !in r && "status" in r && r["status"] == JStr("error")
  {
    map["status" := JStr("error"), "reason" := JStr(MissingReason)]
  }

  /** The record of a run: exit code and both streams, verbatim. */
  function ResultRecord(p: Process): (r: map<string, Json>)
    ensures r.Keys == {"exit_code", "stdout", "stderr"}
    ensures r["exit_code"] == JNum(p.returncode)
    ensures r["stdout"] == JStr(p.stdout) && r["stderr"] == JStr(p.stderr)
  {
    map["exit_code" := JNum(p.returncode), "stdout" := JStr(p.stdout), "stderr" := JStr(p.stderr)]
  }

  /** The implementation is written where `import impl` in the tests finds it. */
  lemma ImplFileIsImported()
    ensures ImplFile == TestGenerator.ImportedModule + ".py"
    ensures TestFile == "test_" + ImplFile
  {
  }

  /**
   * Without code or tests, the error record is stored and nothing is written or run.
   * Otherwise the two files are written, pytest runs on the test file, and its result is
   * stored as it is: the runner decides nothing about pass or fail. Only `test_results`
   * changes.
   */
  method RunTests(state: AgentState, pytest: Process) returns (sandbox: Option<Sandbox>)
    modifies state`testResults
    ensures (state.code.None? || state.tests.None?) ==>
              sandbox == None && state.testResults == Some(MissingRecord())
    ensures (state.code.Some? && state.tests.Some?) ==>
              && sandbox == Some(Sandbox(map[ImplFile := state.code.value, TestFile := state.tests.value], TestFile))
              && state.testResults == Some(ResultRecord(pytest))
  {
    if state.code.None? || state.tests.None? {
      state.testResults := Some(MissingRecord());
      return None;
    }
    var files: map<string, string> := map[];
    files := files[ImplFile := state.code.value];
    files := files[TestFile := state.tests.value];
    sandbox := Some(Sandbox(files, TestFile));
    var result := map["exit_code" := JNum(pytest.returncode), "stdout" := JStr(pytest.stdout),
                      "stderr" := JStr(pytest.stderr)];
    state.testResults := Some(result);
  }

}
