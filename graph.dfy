/**
 * `graph.py`: the fixed stage graph, the routing rule after the failure analyzer, the run
 * of the compiled graph, and the loops that consume its stream of updates.
 *
 * The compiled graph is executed here as an explicit walk: run the current node's stage on
 * the one state object, then follow the node's fixed edge, or, after the failure analyzer,
 * the route chosen by `RouteAfterAnalysis`. The model's replies, pytest's results and
 * `json.loads` are the `Oracle`; replies and results are indexed by the repair round, which
 * is the state's `iteration` at the time of the call.
 */
module Graph {
  import opened Wrappers
  import opened Json
  import opened Utils
  import opened Replies
  import opened Recovery
  import opened State
  import Parse = SpecParser
  import CodeGen = CodeGenerator
  import TestGen = TestGenerator
  import Runner = TestRunner
  import Analyzer = FailureAnalyzer
  import Fixer = CodeFixer

  /** The six registered nodes. */
  datatype Node = SpecParser | CodeGenerator | TestGenerator | TestRunner | FailureAnalyzer | CodeFixer

  /** The name each node is registered under (and streamed with). */
  function Name(n: Node): string {
    match n
    case SpecParser => "spec_parser"
    case CodeGenerator => "code_generator"
    case TestGenerator => "test_generator"
    case TestRunner => "test_runner"
    case FailureAnalyzer => "failure_analyzer"
    case CodeFixer => "code_fixer"
  }

  /** Distinct nodes are registered under distinct names, so a streamed name identifies its node. */
  lemma NamesIdentifyNodes(a: Node, b: Node)
    ensures Name(a) == Name(b) <==> a == b
  {
  }

  /** `set_entry_point("spec_parser")` */
  const Entry: Node := SpecParser

  /**
   * The fixed edges of `build_graph`: the linear first pass, and the fixer back to the test
   * runner (the tests are reused). The failure analyzer has only the conditional edge.
   */
  function Successor(n: Node): (next: Option<Node>)
    ensures next.None? <==> n == FailureAnalyzer
    ensures next.Some? ==> next.value != SpecParser
  {
    match n
    case SpecParser => Some(CodeGenerator)
    case CodeGenerator => Some(TestGenerator)
    case TestGenerator => Some(TestRunner)
    case TestRunner => Some(FailureAnalyzer)
    case FailureAnalyzer => None
    case CodeFixer => Some(TestRunner)
  }

  /** The targets of the conditional edge: `END` or `"code_fixer"`. */
  datatype Route = Finish | ToCodeFixer

  /** What the router does: choose a route, or raise (`.get` on a value that is not a dict). */
  datatype Routing = Routed(route: Route) | Raises(exception: string)

  /** An analysis whose "status" is the string "success". */
  predicate IsSuccess(analysis: Json) {
    analysis.JObj? && "status" in analysis.fields && analysis.fields["status"] == JStr("success")
  }

  /**
   * `route_after_analysis`: success first (a missing analysis or "status" is not success),
   * then the iteration bound, and only then a repair. A truthy analysis that is not a dict
   * makes `.get` raise.
   */
  function RouteAfterAnalysis(errorAnalysis: Json, iteration: int, maxIterations: int): (r: Routing)
    ensures r.Raises? <==> Truthy(errorAnalysis) && !errorAnalysis.JObj?
    ensures IsSuccess(errorAnalysis) ==> r == Routed(Finish)
    ensures r.Routed? && !IsSuccess(errorAnalysis) ==> (r.route == Finish <==> iteration >= maxIterations)
  {
    var analysis := if Truthy(errorAnalysis) then errorAnalysis else JObj(map[]);
    if !analysis.JObj? then Raises("AttributeError")
    else if "status" in analysis.fields && analysis.fields["status"] == JStr("success") then Routed(Finish)
    else if iteration >= maxIterations then Routed(Finish)
    else Routed(ToCodeFixer)
  }

  /** Everything outside the workflow's own logic that a run consults. */
  datatype Oracle = Oracle(
    specReply: string,                 // the spec parser's model reply
    codeReply: Content,                // the code generator's model reply
    testsReply: Content,               // the test generator's model reply
    analysisReply: nat -> string,      // the failure analyzer's model reply in round k
    fixReply: nat -> Content,          // the code fixer's model reply in round k
    pytest: nat -> Runner.Process,     // the pytest process of round k
    decode: Decoder)                   // json.loads

  /** The tests a run generates. */
  function GeneratedTests(oracle: Oracle): string {
    StripMarkdown(TextOf(oracle.testsReply))
  }

  /** The analysis the failure analyzer stores in round k when the tests fail. */
  function ModelAnalysis(oracle: Oracle, k: nat): Json {
    StripThenDecode(oracle.decode, oracle.analysisReply(k))
  }

  /** How a run ends: `END` after a success, `END` at the bound, or an exception. */
  datatype Outcome = Succeeded | Exhausted | Raised(exception: string)

  function Max0(n: int): nat {
    if n < 0 then 0 else n
  }

  /** The repairs still allowed. */
  function Budget(iteration: int, maxIterations: int): nat {
    if iteration < maxIterations then maxIterations - iteration else 0
  }

  /** Distance of a node from the end of its pass, for termination. */
  function Rank(n: Option<Node>): nat {
    match n
    case None => 0
    case Some(SpecParser) => 6
    case Some(CodeGenerator) => 5
    case Some(TestGenerator) => 4
    case Some(TestRunner) => 3
    case Some(FailureAnalyzer) => 2
    case Some(CodeFixer) => 1
  }

  const Head: seq<Node> := [SpecParser, CodeGenerator, TestGenerator]
  const Cycle: seq<Node> := [TestRunner, FailureAnalyzer, CodeFixer]

  function Repeat(block: seq<Node>, n: nat): seq<Node> {
    if n == 0 then [] else Repeat(block, n - 1) + block
  }

  /** The nodes of a run with `fixes` repairs, in execution order. */
  function RunTrace(fixes: nat): seq<Node> {
    Head + Repeat(Cycle, fixes) + [TestRunner, FailureAnalyzer]
  }

  /** How often node n occurs in a trace. */
  function Count(s: seq<Node>, n: Node): nat {
    if s == [] then 0 else Count(s[..|s| - 1], n) + (if s[|s| - 1] == n then 1 else 0)
  }

  lemma {:induction false} CountAppend(a: seq<Node>, b: seq<Node>, n: Node)
    ensures Count(a + b, n) == Count(a, n) + Count(b, n)
    decreases |b|
  {
    if b == [] {
      assert a + b == a;
    } else {
      assert (a + b)[..|a + b| - 1] == a + b[..|b| - 1];
      CountAppend(a, b[..|b| - 1], n);
    }
  }

  lemma {:induction false} CountRepeat(block: seq<Node>, k: nat, n: Node)
    ensures Count(Repeat(block, k), n) == k * Count(block, n)
  {
    if k > 0 {
      CountRepeat(block, k - 1, n);
      CountAppend(Repeat(block, k - 1), block, n);
    }
  }

  /** One more repair adds the fixer, the test runner and the analyzer, in that order. */
  lemma RunTraceNext(fixes: nat)
    ensures RunTrace(fixes + 1) == RunTrace(fixes) + [CodeFixer, TestRunner, FailureAnalyzer]
  {
    assert Repeat(Cycle, fixes + 1) == Repeat(Cycle, fixes) + Cycle;
  }

  /**
   * In a run with `fixes` repairs the parser and the two generators run once each, the
   * test runner and the analyzer once more than the fixer, which runs `fixes` times.
   */
  lemma RunTraceCounts(fixes: nat)
    ensures Count(RunTrace(fixes), SpecParser) == 1
    ensures Count(RunTrace(fixes), CodeGenerator) == 1
    ensures Count(RunTrace(fixes), TestGenerator) == 1
    ensures Count(RunTrace(fixes), TestRunner) == fixes + 1
    ensures Count(RunTrace(fixes), FailureAnalyzer) == fixes + 1
    ensures Count(RunTrace(fixes), CodeFixer) == fixes
  {
    var r := Repeat(Cycle, fixes);
    var tail: seq<Node> := [TestRunner, FailureAnalyzer];
    forall n: Node
      ensures Count(RunTrace(fixes), n) == Count(Head, n) + fixes * Count(Cycle, n) + Count(tail, n)
    {
      CountAppend(Head + r, tail, n);
      CountAppend(Head, r, n);
      CountRepeat(Cycle, fixes, n);
    }
    assert Count(Head, SpecParser) == 1 && Count(Cycle, SpecParser) == 0 && Count(tail, SpecParser) == 0;
    assert Count(Head, CodeGenerator) == 1 && Count(Cycle, CodeGenerator) == 0 && Count(tail, CodeGenerator) == 0;
    assert Count(Head, TestGenerator) == 1 && Count(Cycle, TestGenerator) == 0 && Count(tail, TestGenerator) == 0;
    assert Count(Head, TestRunner) == 0 && Count(Cycle, TestRunner) == 1 && Count(tail, TestRunner) == 1;
    assert Count(Head, FailureAnalyzer) == 0 && Count(Cycle, FailureAnalyzer) == 1 && Count(tail, FailureAnalyzer) == 1;
    assert Count(Head, CodeFixer) == 0 && Count(Cycle, CodeFixer) == 1 && Count(tail, CodeFixer) == 0;
  }

  /** A step the compiled graph can take: a fixed edge, or the router's edge to the fixer. */
  predicate Edge(from: Node, to: Node) {
    Successor(from) == Some(to) || (from == FailureAnalyzer && to == CodeFixer)
  }

  /**
   * Every run trace is a walk of the graph: it starts at the entry point, each step is an
   * edge, and it stops at the analyzer, the only node with an edge to `END`.
   */
  lemma {:induction false} RunTraceIsWalk(fixes: nat)
    ensures RunTrace(fixes)[0] == Entry
    ensures RunTrace(fixes)[|RunTrace(fixes)| - 1] == FailureAnalyzer
    ensures forall i :: 0 <= i < |RunTrace(fixes)| - 1 ==> Edge(RunTrace(fixes)[i], RunTrace(fixes)[i + 1])
  {
    if fixes == 0 {
      assert RunTrace(0) == [SpecParser, CodeGenerator, TestGenerator, TestRunner, FailureAnalyzer];
    } else {
      var t := RunTrace(fixes - 1);
      RunTraceIsWalk(fixes - 1);
      RunTraceNext(fixes - 1);
      var u := t + [CodeFixer, TestRunner, FailureAnalyzer];
      assert RunTrace(fixes) == u;
      forall i | 0 <= i < |u| - 1 ensures Edge(u[i], u[i + 1]) {
        if i < |t| - 1 {
          assert u[i] == t[i] && u[i + 1] == t[i + 1];
        }
      }
    }
  }

  /** A history entry written by the fixer in round k of a run on `spec`. */
  ghost predicate FixEntry(entry: map<string, Json>, k: nat, spec: string) {
    && entry.Keys == BaseKeys + {"event", "previous_error_analysis"}
    && entry["iteration"] == JNum(k)
    && entry["spec"] == JStr(spec)
    && entry["has_code"] == JBool(true)
    && entry["has_tests"] == JBool(true)
    && entry["event"] == JStr("fix_code")
    && !IsSuccess(entry["previous_error_analysis"])
  }

  /** A repair round closes one more cycle of the trace. */
  lemma CloseCycle(trace: seq<Node>, n: nat)
    requires trace == Head + Repeat(Cycle, n) + [TestRunner, FailureAnalyzer]
    ensures trace + [CodeFixer] == Head + Repeat(Cycle, n + 1)
  {
    assert Repeat(Cycle, n + 1) == Repeat(Cycle, n) + Cycle;
  }

  /** The fixer's snapshot of a state with code and tests, answering a non-success analysis. */
  lemma FixerEntry(iteration: nat, spec: string, previous: Json)
    requires !IsSuccess(previous)
    ensures FixEntry(SnapshotOf(iteration, spec, true, true, Fixer.FixExtras(previous)), iteration, spec)
  {
    Fixer.FixSnapshot(iteration, spec, true, previous);
  }

  /** Entry k of the history is the fixer's snapshot of round k. */
  ghost predicate FixLog(history: seq<map<string, Json>>, spec: string) {
    forall k :: 0 <= k < |history| ==> FixEntry(history[k], k, spec)
  }

  lemma FixLogAppend(history: seq<map<string, Json>>, spec: string, entry: map<string, Json>)
    requires FixLog(history, spec) && FixEntry(entry, |history|, spec)
    ensures FixLog(history + [entry], spec)
  {
  }

  /** The tests of round k fail. */
  predicate Fails(oracle: Oracle, k: nat) {
    oracle.pytest(k).returncode != 0
  }

  /** The tests of every round before round n failed. */
  ghost predicate FailedBefore(oracle: Oracle, n: int) {
    forall k :: 0 <= k < n ==> Fails(oracle, k)
  }

  /**
   * The model's analysis decodes to something other than `null` in every round below the
   * bound that a run can reach with failing tests; a run reaches round k only when all earlier
   * rounds failed. At or past the bound a `null` analysis only ends the run.
   */
  ghost predicate AnalysesNonNull(oracle: Oracle, maxIterations: int) {
    forall k: nat :: k < maxIterations && FailedBefore(oracle, k) && Fails(oracle, k) ==>
      ModelAnalysis(oracle, k) != JNull
  }

  /** A decoder that never yields `null` gives non-null analyses. */
  lemma NeverNullAnalyses(oracle: Oracle)
    requires NeverNull(oracle.decode)
    ensures forall m :: AnalysesNonNull(oracle, m)
  {
  }

  /** A decoder that yields only objects gives non-null analyses. */
  lemma ObjectsOnlyAnalyses(oracle: Oracle)
    requires ObjectsOnly(oracle.decode)
    ensures forall m :: AnalysesNonNull(oracle, m)
  {
  }

  /** When the first test run passes, no round asks the model for an analysis. */
  lemma PassingFirstAnalyses(oracle: Oracle)
    requires !Fails(oracle, 0)
    ensures forall m :: AnalysesNonNull(oracle, m)
  {
    forall k: nat
      ensures !(FailedBefore(oracle, k) && Fails(oracle, k))
    {
      if k > 0 {
        assert !Fails(oracle, 0);
      }
    }
  }

  lemma FailedBeforeNext(oracle: Oracle, n: nat)
    requires FailedBefore(oracle, n) && Fails(oracle, n)
    ensures FailedBefore(oracle, n + 1)
  {
  }

  /** Every sandbox ran the generated tests. */
  ghost predicate SameTests(runs: seq<Runner.Sandbox>, oracle: Oracle) {
    forall k :: 0 <= k < |runs| ==>
      runs[k].target == Runner.TestFile && Runner.TestFile in runs[k].files &&
      runs[k].files[Runner.TestFile] == GeneratedTests(oracle)
  }

  /** The fields of a state that the run's invariant speaks about. */
  datatype View = View(
    spec: string, maxIterations: int, iteration: int, code: Option<string>, tests: Option<string>,
    testResults: Option<map<string, Json>>, errorAnalysis: Json, history: seq<map<string, Json>>)

  function ViewOf(state: AgentState): View
    reads state
  {
    View(state.spec, state.maxIterations, state.iteration, state.code, state.tests,
         state.testResults, state.errorAnalysis, state.history)
  }

  /** What holds throughout a run, whichever node is next. */
  ghost predicate Common(v: View, oracle: Oracle, spec: string, maxIterations: int, runs: seq<Runner.Sandbox>)
  {
    && v.spec == spec && v.maxIterations == maxIterations
    && 0 <= v.iteration <= Max0(maxIterations)
    && |v.history| == v.iteration
    && FixLog(v.history, spec)
    && SameTests(runs, oracle)
  }

  /** After the first pass: code and tests exist, and every earlier round's tests failed. */
  ghost predicate Ready(v: View, oracle: Oracle)
  {
    && v.iteration >= 0
    && v.code.Some? && v.tests == Some(GeneratedTests(oracle))
    && FailedBefore(oracle, v.iteration)
  }

  /** How the run ended, once no node is left. */
  ghost predicate Ended(v: View, oracle: Oracle, outcome: Outcome)
  {
    && v.iteration >= 0
    && (outcome == Succeeded <==> IsSuccess(v.errorAnalysis))
    && (outcome == Exhausted ==> v.iteration >= v.maxIterations)
    && (outcome.Raised? ==> Truthy(v.errorAnalysis) && !v.errorAnalysis.JObj?)
    && (ObjectsOnly(oracle.decode) ==> !outcome.Raised?)
    && (!Fails(oracle, v.iteration) ==> outcome == Succeeded)
    && (outcome == Succeeded ==>
          !Fails(oracle, v.iteration) || IsSuccess(ModelAnalysis(oracle, v.iteration)))
  }

  /** The nodes run so far and the state they left, given the node to run next. */
  ghost predicate Phase(v: View, oracle: Oracle, current: Option<Node>, trace: seq<Node>,
                        runs: seq<Runner.Sandbox>, outcome: Outcome)
  {
    match current
    case Some(SpecParser) => trace == [] && v.iteration == 0 && runs == []
    case Some(CodeGenerator) => trace == [SpecParser] && v.iteration == 0 && runs == []
    case Some(TestGenerator) =>
      trace == [SpecParser, CodeGenerator] && v.iteration == 0 && runs == [] && v.code.Some?
    case Some(TestRunner) =>
      && Ready(v, oracle)
      && trace == Head + Repeat(Cycle, v.iteration) && |runs| == v.iteration
    case Some(FailureAnalyzer) =>
      && Ready(v, oracle)
      && trace == Head + Repeat(Cycle, v.iteration) + [TestRunner]
      && |runs| == v.iteration + 1
      && v.testResults == Some(Runner.ResultRecord(oracle.pytest(v.iteration)))
    case Some(CodeFixer) =>
      && Ready(v, oracle)
      && trace == Head + Repeat(Cycle, v.iteration) + [TestRunner, FailureAnalyzer]
      && |runs| == v.iteration + 1
      && v.iteration < v.maxIterations
      && v.errorAnalysis != JNull && !IsSuccess(v.errorAnalysis)
      && Fails(oracle, v.iteration)
    case None =>
      && Ready(v, oracle)
      && v.iteration >= 0
      && trace == RunTrace(v.iteration) && |runs| == v.iteration + 1
      && Ended(v, oracle, outcome)
  }

  method StepSpecParser(state: AgentState, oracle: Oracle, spec: string, maxIterations: int,
                        trace: seq<Node>, runs: seq<Runner.Sandbox>, outcome: Outcome)
    returns (trace': seq<Node>)
    modifies state`parsedSpec
    requires Common(ViewOf(state), oracle, spec, maxIterations, runs)
    requires Phase(ViewOf(state), oracle, Some(SpecParser), trace, runs, outcome)
    ensures Common(ViewOf(state), oracle, spec, maxIterations, runs)
    ensures Phase(ViewOf(state), oracle, Some(CodeGenerator), trace', runs, outcome)
  {
    Parse.ParseSpec(state, oracle.specReply, oracle.decode);
    trace' := trace + [SpecParser];
  }

  method StepCodeGenerator(state: AgentState, oracle: Oracle, spec: string, maxIterations: int,
                           trace: seq<Node>, runs: seq<Runner.Sandbox>, outcome: Outcome)
    returns (trace': seq<Node>)
    modifies state`code
    requires Common(ViewOf(state), oracle, spec, maxIterations, runs)
    requires Phase(ViewOf(state), oracle, Some(CodeGenerator), trace, runs, outcome)
    ensures Common(ViewOf(state), oracle, spec, maxIterations, runs)
    ensures Phase(ViewOf(state), oracle, Some(TestGenerator), trace', runs, outcome)
  {
    CodeGen.GenerateCode(state, oracle.codeReply);
    trace' := trace + [CodeGenerator];
  }

  method StepTestGenerator(state: AgentState, oracle: Oracle, spec: string, maxIterations: int,
                           trace: seq<Node>, runs: seq<Runner.Sandbox>, outcome: Outcome)
    returns (trace': seq<Node>)
    modifies state`tests
    requires Common(ViewOf(state), oracle, spec, maxIterations, runs)
    requires Phase(ViewOf(state), oracle, Some(TestGenerator), trace, runs, outcome)
    ensures Common(ViewOf(state), oracle, spec, maxIterations, runs)
    ensures Phase(ViewOf(state), oracle, Some(TestRunner), trace', runs, outcome)
  {
    TestGen.GenerateTests(state, oracle.testsReply);
    trace' := trace + [TestGenerator];
  }

  method StepTestRunner(state: AgentState, oracle: Oracle, spec: string, maxIterations: int,
                        trace: seq<Node>, runs: seq<Runner.Sandbox>, outcome: Outcome)
    returns (trace': seq<Node>, runs': seq<Runner.Sandbox>)
    modifies state`testResults
    requires Common(ViewOf(state), oracle, spec, maxIterations, runs)
    requires Phase(ViewOf(state), oracle, Some(TestRunner), trace, runs, outcome)
    ensures Common(ViewOf(state), oracle, spec, maxIterations, runs')
    ensures Phase(ViewOf(state), oracle, Some(FailureAnalyzer), trace', runs', outcome)
  {
    var sandbox := Runner.RunTests(state, oracle.pytest(state.iteration));
    trace', runs' := trace + [TestRunner], runs + [sandbox.value];
  }

  /** What the analysis stored in round k says about that round's tests. */
  lemma AnalysisFacts(oracle: Oracle, m: int, k: nat, results: Option<map<string, Json>>, asked: bool,
                      analysis: Json)
    requires AnalysesNonNull(oracle, m) && FailedBefore(oracle, k)
    requires results == Some(Runner.ResultRecord(oracle.pytest(k)))
    requires asked <==> !Analyzer.Passed(results)
    requires !asked ==> analysis == Analyzer.SuccessRecord()
    requires asked ==> analysis == ModelAnalysis(oracle, k)
    ensures k < m ==> analysis != JNull
    ensures !Fails(oracle, k) ==> IsSuccess(analysis)
    ensures ObjectsOnly(oracle.decode) ==> analysis.JObj?
    ensures IsSuccess(analysis) ==> !Fails(oracle, k) || IsSuccess(ModelAnalysis(oracle, k))
  {
    Analyzer.PassedIffExitZero(oracle.pytest(k));
  }

  /** The node the router sends the run to, and, at `END`, how the run ended. */
  function Dispatch(routing: Routing, analysis: Json, outcome: Outcome): (Option<Node>, Outcome) {
    match routing
    case Raises(e) => (None, Raised(e))
    case Routed(Finish) => (None, if IsSuccess(analysis) then Succeeded else Exhausted)
    case Routed(ToCodeFixer) => (Some(CodeFixer), outcome)
  }

  /** The router's choice after the analysis of round `v.iteration` continues a valid run. */
  lemma DispatchPhase(v: View, oracle: Oracle, trace: seq<Node>, runs: seq<Runner.Sandbox>,
                      outcome: Outcome, asked: bool)
    requires AnalysesNonNull(oracle, v.maxIterations)
    requires Ready(v, oracle)
    requires trace == Head + Repeat(Cycle, v.iteration) + [TestRunner] && |runs| == v.iteration + 1
    requires v.testResults == Some(Runner.ResultRecord(oracle.pytest(v.iteration)))
    requires asked <==> !Analyzer.Passed(v.testResults)
    requires !asked ==> v.errorAnalysis == Analyzer.SuccessRecord()
    requires asked ==> v.errorAnalysis == ModelAnalysis(oracle, v.iteration)
    ensures var (next, outcome') := Dispatch(RouteAfterAnalysis(v.errorAnalysis, v.iteration, v.maxIterations),
                                             v.errorAnalysis, outcome);
            && (next == None || next == Some(CodeFixer))
            && Phase(v, oracle, next, trace + [FailureAnalyzer], runs, outcome')
  {
    AnalysisFacts(oracle, v.maxIterations, v.iteration, v.testResults, asked, v.errorAnalysis);
  }

  method StepFailureAnalyzer(state: AgentState, oracle: Oracle, spec: string, maxIterations: int,
                             trace: seq<Node>, runs: seq<Runner.Sandbox>, outcome: Outcome)
    returns (trace': seq<Node>, next: Option<Node>, outcome': Outcome)
    requires AnalysesNonNull(oracle, maxIterations)
    modifies state`errorAnalysis
    requires Common(ViewOf(state), oracle, spec, maxIterations, runs)
    requires Phase(ViewOf(state), oracle, Some(FailureAnalyzer), trace, runs, outcome)
    ensures Common(ViewOf(state), oracle, spec, maxIterations, runs)
    ensures next == None || next == Some(CodeFixer)
    ensures Phase(ViewOf(state), oracle, next, trace', runs, outcome')
  {
    var asked := Analyzer.AnalyzeFailures(state, oracle.analysisReply(state.iteration), oracle.decode);
    DispatchPhase(ViewOf(state), oracle, trace, runs, outcome, asked);
    trace' := trace + [FailureAnalyzer];
    var routing := RouteAfterAnalysis(state.errorAnalysis, state.iteration, state.maxIterations);
    var dispatched := Dispatch(routing, state.errorAnalysis, outcome);
    next, outcome' := dispatched.0, dispatched.1;
  }

  method StepCodeFixer(state: AgentState, oracle: Oracle, spec: string, maxIterations: int,
                       trace: seq<Node>, runs: seq<Runner.Sandbox>, outcome: Outcome)
    returns (trace': seq<Node>)
    modifies state`history, state`iteration, state`code
    requires Common(ViewOf(state), oracle, spec, maxIterations, runs)
    requires Phase(ViewOf(state), oracle, Some(CodeFixer), trace, runs, outcome)
    ensures state.iteration == old(state.iteration) + 1
    ensures Common(ViewOf(state), oracle, spec, maxIterations, runs)
    ensures Phase(ViewOf(state), oracle, Some(TestRunner), trace', runs, outcome)
  {
    var round: nat := state.iteration;
    CloseCycle(trace, round);
    FailedBeforeNext(oracle, round);
    Fixer.FixCode(state, oracle.fixReply(state.iteration));
    FixerEntry(round, spec, state.errorAnalysis);
    FixLogAppend(old(state.history), spec, state.history[round]);
    trace' := trace + [CodeFixer];
  }

  /**
   * The run of the compiled graph on `AgentState(spec, max_iterations)`. When no analysis of a
   * failing round below the bound decodes to `null`, it terminates; the nodes run in the order `RunTrace` gives, so the
   * generators run once, first, and the test runner runs once more than the fixer; every
   * test run uses the same generated tests; the iteration never passes `max(0, max_iterations)`
   * and equals it when the run ends without success; each repair left one history entry
   * with its own round number. A passing test run ends the run with success; the run can
   * also end with success when the model itself answers with a "success" status.
   */
  method Run(spec: string, oracle: Oracle, maxIterations: int := 3)
    returns (state: AgentState, trace: seq<Node>, runs: seq<Runner.Sandbox>, outcome: Outcome)
    requires AnalysesNonNull(oracle, maxIterations)
    ensures state.spec == spec && state.maxIterations == maxIterations
    ensures 0 <= state.iteration <= Max0(maxIterations)
    ensures trace == RunTrace(state.iteration)
    ensures Count(trace, TestRunner) == Count(trace, CodeFixer) + 1 == state.iteration + 1
    ensures Count(trace, SpecParser) == Count(trace, CodeGenerator) == Count(trace, TestGenerator) == 1
    ensures |runs| == state.iteration + 1
    ensures state.tests == Some(GeneratedTests(oracle))
    ensures forall k :: 0 <= k < |runs| ==>
              runs[k].target == Runner.TestFile && Runner.TestFile in runs[k].files &&
              runs[k].files[Runner.TestFile] == GeneratedTests(oracle)
    ensures |state.history| == state.iteration
    ensures forall k :: 0 <= k < |state.history| ==> FixEntry(state.history[k], k, spec)
    ensures outcome == Succeeded <==> IsSuccess(state.errorAnalysis)
    ensures outcome == Exhausted ==> state.iteration == Max0(maxIterations)
    ensures outcome.Raised? ==> Truthy(state.errorAnalysis) && !state.errorAnalysis.JObj?
    ensures ObjectsOnly(oracle.decode) ==> !outcome.Raised?
    ensures forall k :: 0 <= k < state.iteration ==> Fails(oracle, k)
    ensures !Fails(oracle, state.iteration) ==> outcome == Succeeded
    ensures outcome == Succeeded ==>
              !Fails(oracle, state.iteration) || IsSuccess(ModelAnalysis(oracle, state.iteration))
  {
    state := new AgentState(spec, maxIterations);
    trace, runs, outcome := [], [], Exhausted;
    var current: Option<Node> := Some(Entry);
    while current.Some?
      invariant Common(ViewOf(state), oracle, spec, maxIterations, runs)
      invariant Phase(ViewOf(state), oracle, current, trace, runs, outcome)
      decreases Budget(state.iteration, maxIterations), Rank(current)
    {
      match current.value {
        case SpecParser =>
          trace := StepSpecParser(state, oracle, spec, maxIterations, trace, runs, outcome);
          current := Some(CodeGenerator);
        case CodeGenerator =>
          trace := StepCodeGenerator(state, oracle, spec, maxIterations, trace, runs, outcome);
          current := Some(TestGenerator);
        case TestGenerator =>
          trace := StepTestGenerator(state, oracle, spec, maxIterations, trace, runs, outcome);
          current := Some(TestRunner);
        case TestRunner =>
          trace, runs := StepTestRunner(state, oracle, spec, maxIterations, trace, runs, outcome);
          current := Some(FailureAnalyzer);
        case FailureAnalyzer =>
          trace, current, outcome := StepFailureAnalyzer(state, oracle, spec, maxIterations, trace, runs, outcome);
        case CodeFixer =>
          trace := StepCodeFixer(state, oracle, spec, maxIterations, trace, runs, outcome);
          current := Some(TestRunner);
      }
    }
    RunTraceCounts(state.iteration);
  }

  /**
   * When no test run passes and the model never answers "success" with a JSON object, the
   * run makes exactly `max(0, max_iterations)` repairs and ends at the bound.
   */
  method RunNeverPassing(spec: string, oracle: Oracle, maxIterations: int)
    returns (state: AgentState, outcome: Outcome)
    requires ObjectsOnly(oracle.decode)
    requires forall k: nat :: Fails(oracle, k) && !IsSuccess(ModelAnalysis(oracle, k))
    ensures outcome == Exhausted
    ensures state.iteration == Max0(maxIterations) && |state.history| == Max0(maxIterations)
  {
    ObjectsOnlyAnalyses(oracle);
    var trace, runs;
    state, trace, runs, outcome := Run(spec, oracle, maxIterations);
    var last: nat := state.iteration;
    assert Fails(oracle, last) && !IsSuccess(ModelAnalysis(oracle, last));
  }

  /** When the first test run passes, the run ends with success and no repair. */
  method RunPassingFirst(spec: string, oracle: Oracle, maxIterations: int)
    returns (state: AgentState, trace: seq<Node>, outcome: Outcome)
    requires !Fails(oracle, 0)
    ensures outcome == Succeeded
    ensures state.iteration == 0 && state.history == []
    ensures trace == [SpecParser, CodeGenerator, TestGenerator, TestRunner, FailureAnalyzer]
  {
    PassingFirstAnalyses(oracle);
    var runs;
    state, trace, runs, outcome := Run(spec, oracle, maxIterations);
  }

  /**
   * A `null` analysis is not a success and the router sends it to the fixer while the bound
   * allows, but the fixer leaves the state as it is for a `null` analysis: the iteration
   * does not grow, so the run re-enters the test runner and the analyzer at the same
   * iteration, for as long as the re-asked analysis decodes to `null`.
   */
  lemma NullAnalysisRepeatsFixer(iteration: int, maxIterations: int)
    requires iteration < maxIterations
    ensures RouteAfterAnalysis(JNull, iteration, maxIterations) == Routed(ToCodeFixer)
  {
  }

  /** One streamed event: the (node name, state update) pairs of one step, in order. */
  type Event<V> = seq<(string, map<string, V>)>

  /** The pairs of a stream of events, in stream order. */
  function Flatten<V>(events: seq<Event<V>>): seq<(string, map<string, V>)> {
    if events == [] then [] else Flatten(events[..|events| - 1]) + events[|events| - 1]
  }

  /** `final_state.update(state_update)` over the pairs in order: later updates win. */
  function MergeAll<V>(updates: seq<(string, map<string, V>)>): map<string, V> {
    if updates == [] then map[] else MergeAll(updates[..|updates| - 1]) + updates[|updates| - 1].1
  }

  lemma {:induction false} FlattenAppend<V>(a: seq<Event<V>>, b: seq<Event<V>>)
    ensures Flatten(a + b) == Flatten(a) + Flatten(b)
    decreases |b|
  {
    if b == [] {
      assert a + b == a;
    } else {
      assert (a + b)[..|a + b| - 1] == a + b[..|b| - 1];
      FlattenAppend(a, b[..|b| - 1]);
    }
  }

  /**
   * The merged state holds exactly the keys some update holds, and each key's value comes
   * from the last update that holds it.
   */
  lemma {:induction false} LastWriterWins<V>(updates: seq<(string, map<string, V>)>, key: string)
    ensures key in MergeAll(updates) <==> exists i :: 0 <= i < |updates| && key in updates[i].1
    ensures forall i :: 0 <= i < |updates| && key in updates[i].1 &&
                        (forall j :: i < j < |updates| ==> key !in updates[j].1) ==>
                          key in MergeAll(updates) && MergeAll(updates)[key] == updates[i].1[key]
  {
    if updates != [] {
      var n := |updates| - 1;
      var front := updates[..n];
      LastWriterWins(front, key);
      assert forall i :: 0 <= i < n ==> front[i] == updates[i];
      if key !in updates[n].1 {
        assert (exists i :: 0 <= i < |updates| && key in updates[i].1) ==>
               (exists i :: 0 <= i < n && key in front[i].1);
      }
    }
  }

  /**
   * `run_self_verifying_agent`'s loop: every pair of every event is merged into
   * `final_state`, in stream order.
   */
  method CollectFinalState<V>(events: seq<Event<V>>) returns (finalState: map<string, V>)
    ensures finalState == MergeAll(Flatten(events))
  {
    finalState := map[];
    for i := 0 to |events|
      invariant finalState == MergeAll(Flatten(events[..i]))
    {
      var event := events[i];
      assert events[..i + 1][..i] == events[..i];
      assert Flatten(events[..i]) + event[..0] == Flatten(events[..i]);
      for j := 0 to |event|
        invariant finalState == MergeAll(Flatten(events[..i]) + event[..j])
      {
        assert (Flatten(events[..i]) + event[..j + 1])[..|Flatten(events[..i])| + j] ==
               Flatten(events[..i]) + event[..j];
        finalState := finalState + event[j].1;
      }
      assert event[..|event|] == event;
    }
    assert events[..|events|] == events;
  }

  /**
   * `stream_self_verifying_agent`: yields every pair of every event, in stream order, the
   * same pairs `CollectFinalState` merges.
   */
  method StreamUpdates<V>(events: seq<Event<V>>) returns (yielded: seq<(string, map<string, V>)>)
    ensures yielded == Flatten(events)
  {
    yielded := [];
    for i := 0 to |events|
      invariant yielded == Flatten(events[..i])
    {
      var event := events[i];
      assert events[..i + 1][..i] == events[..i];
      for j := 0 to |event|
        invariant yielded == Flatten(events[..i]) + event[..j]
      {
        assert event[..j + 1] == event[..j] + [event[j]];
        yielded := yielded + [event[j]];
      }
      assert event[..|event|] == event;
    }
    assert events[..|events|] == events;
  }

}
