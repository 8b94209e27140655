# Self-verifying code agent: the workflow engine in Dafny

This project models the workflow engine of the self-verifying code agent. The agent takes a
natural-language specification and runs a fixed graph of stages on one shared `AgentState`:

- parse the specification;
- generate an implementation;
- generate pytest tests from the specification alone;
- run the tests in a scratch directory;
- analyse the result;
- while the analysis is not a success and the repair budget allows, fix the code and run
  the same tests again.

The model covers the state and its two methods, the six stage functions, the
`strip_markdown` helper that every stage applies to model output, the graph's edges and its
router, a run of the compiled graph, and the two loops that consume the graph's stream of
updates.

Layout, one module per source file:

- `State` models `AgentState` as a class. `increment_iteration` and `record_snapshot`
  update its fields in place.
- `SpecParser`, `CodeGenerator`, `TestGenerator`, `TestRunner`, `FailureAnalyzer` and
  `CodeFixer` are the stages. Each is a module-level method that takes the state as a
  parameter, as the Python stage functions do. Its `modifies` clause names the fields of the
  state that the stage writes.
- `Utils` is `strip_markdown`. The regular expression search is written position by
  position, and `str.strip()` is modelled on ASCII whitespace.
- `Json`, `Replies` and `Recovery` hold the shared pieces:
  - decoded JSON values, Python truthiness and the decode-or-`{"raw": …}` fallback;
  - the two shapes of a model reply;
  - the "strip, then decode" recovery used by the parser and the analyser.
- `Graph` holds:
  - the nodes and edges, and the router;
  - `Run`, an explicit walk of the compiled graph. Its invariant is spread over per-node
    step methods.
  - the trace lemmas;
  - the update-merging and streaming loops.

Everything outside the workflow is a parameter (`Graph.Oracle`):

- the language model's replies;
- pytest's exit code and output;
- `json.loads`.

## Model

| member | source | states |
|---|---|---|
| State.AgentState.constructor | src/self_verifying_agent/state.py:14-36 | a new state holds the given specification and bound (5 by default), an empty parsed spec, no code, tests, results or analysis, iteration 0 and an empty history |
| State.AgentState.IncrementIteration | src/self_verifying_agent/state.py:38-39 | the iteration goes up by exactly one and nothing else changes |
| State.SnapshotOf | src/self_verifying_agent/state.py:47-53 | a snapshot has exactly the four base keys plus the extras' keys; extras override base keys of the same name; otherwise it records the iteration, the specification and whether code and tests exist |
| State.AgentState.RecordSnapshot | src/self_verifying_agent/state.py:41-54 | the history gains exactly one entry, the snapshot of the current state, at its end; earlier entries and all other fields are unchanged |
| Json.DecodeOrRaw | src/self_verifying_agent/spec_parser.py:43-46 | a decodable text gives its decoded value unchecked; otherwise the result is an object whose only key is "raw", holding the text; with a decoder that never yields null the result is not None; with one that yields only objects it is an object |
| Utils.StripBounds | src/self_verifying_agent/utils.py:9-10 | the cut points of `str.strip()`: everything cut off is whitespace and the kept middle neither starts nor ends with whitespace |
| Utils.Strip | src/self_verifying_agent/utils.py:9-10 | the stripped text has no whitespace at either end and is no longer than the input |
| Utils.StripKeeps | src/self_verifying_agent/utils.py:9-10 | stripping a text without outer whitespace gives the same text |
| Utils.TagEnd | src/self_verifying_agent/utils.py:6 | the greedy info string `[a-zA-Z+]*` takes every tag character up to the first non-tag character |
| Utils.BodyStart | src/self_verifying_agent/utils.py:6 | group 1 starts right after the longest tag (`TagEnd`), or one character later when a newline follows that tag |
| Utils.FirstClose | src/self_verifying_agent/utils.py:6-7 | the lazy body ends at the first position where `\n?` + three backticks + `$` matches; no earlier position matches, and None means no position matches |
| Utils.MatchAt | src/self_verifying_agent/utils.py:6-7 | a match starts only at a line start with a fence, and its group lies after the fence and ends where a closing fence matches |
| Utils.Search | src/self_verifying_agent/utils.py:7 | `re.search` returns bounds inside the text, at or after the search start |
| Utils.SearchNone | src/self_verifying_agent/utils.py:7 | with no match at any position, the search finds nothing |
| Utils.SearchFirst | src/self_verifying_agent/utils.py:7 | the search returns the match at the leftmost position where the pattern matches |
| Utils.StripMarkdown | src/self_verifying_agent/utils.py:3-10 | the result is always a contiguous piece of the input, no longer than it, without whitespace at either end |
| Utils.StripMarkdownOfMatch | src/self_verifying_agent/utils.py:8-9 | when the search matches, the result is group 1 stripped |
| Utils.StripMarkdownEmpty | src/self_verifying_agent/utils.py:10 | the empty text maps to the empty text |
| Utils.NoFenceIsStrip | src/self_verifying_agent/utils.py:7-10 | a text without three backticks comes back as `text.strip()` |
| Utils.SearchFindsBlock | src/self_verifying_agent/utils.py:6-7 | a fence at a line start, a tag, a newline, a fence-free body and a closing fence ending a line: the search returns exactly the body's bounds |
| Utils.ExtractsFencedBlock | src/self_verifying_agent/utils.py:3-10 | fence-free prose ending a line, then a fenced block with a tag and a fence-free body, then anything starting a new line: the result is `body.strip()` |
| Utils.FencedBlock | src/self_verifying_agent/utils.py:5-9 | "```" + tag + newline + body + newline + "```" gives `body.strip()` for any tag of letters and `+` and any fence-free body |
| Replies.JoinParts | src/self_verifying_agent/code_generator.py:44 | a list in which no part is a dict with "text" (the empty list included) joins to the empty text |
| Replies.JoinAppend | src/self_verifying_agent/code_generator.py:44 | the join of two part lists is the join of the first followed by the join of the second |
| Replies.NonTextPartIgnored | src/self_verifying_agent/code_generator.py:44 | a part that is not a dict with "text" contributes nothing, wherever it stands |
| Replies.TextPartKept | src/self_verifying_agent/code_generator.py:44 | a dict part with "text" contributes exactly that text, between the join of the parts before it and the join of the parts after it; with `JoinAppend` and `NonTextPartIgnored`, a list reply yields the "text" values of its dict parts with "text", concatenated in order |
| Replies.TextOf | src/self_verifying_agent/code_generator.py:39-44 | a string reply is used unchanged; a list reply yields the join of its parts, as `TextPartKept`, `NonTextPartIgnored` and `JoinAppend` characterise it |
| Recovery.StripThenDecode | src/self_verifying_agent/spec_parser.py:37-48 | the stripped reply is decoded when it decodes, and otherwise is kept under "raw" |
| Recovery.ProseFallsBackToRaw | src/self_verifying_agent/spec_parser.py:38-46 | a fence-free reply that does not decode is stored as `{"raw": reply.strip()}` |
| SpecParser.ParseSpec | src/self_verifying_agent/spec_parser.py:37-51 | `parsed_spec` becomes the strip-then-decode of the reply and no other field changes |
| CodeGenerator.GenerateCode | src/self_verifying_agent/code_generator.py:39-47 | `code` becomes the stripped text of the reply, which has no outer whitespace, and no other field changes |
| TestGenerator.GenerateTests | src/self_verifying_agent/test_generator.py:42-49 | `tests` becomes the stripped text of the reply, which has no outer whitespace, and no other field changes |
| TestRunner.MissingRecord | src/self_verifying_agent/test_runner.py:20-25 | the record for missing inputs has status "error" and no exit code |
| TestRunner.ResultRecord | src/self_verifying_agent/test_runner.py:45-49 | a run's record has exactly the keys exit_code, stdout and stderr, holding pytest's values verbatim |
| TestRunner.ImplFileIsImported | src/self_verifying_agent/test_runner.py:29-30 | the implementation file is the module the generated tests import, and the test file is its `test_` counterpart |
| TestRunner.RunTests | src/self_verifying_agent/test_runner.py:12-52 | without code or tests nothing is run and the error record is stored; otherwise exactly the code and tests are written, pytest runs on the test file and its record is stored; only `test_results` changes |
| FailureAnalyzer.SuccessRecord | src/self_verifying_agent/failure_analyzer.py:20-23 | the stored success record has status "success" |
| FailureAnalyzer.ExitCode | src/self_verifying_agent/failure_analyzer.py:16-17 | absent results, or results without "exit_code", count as exit code 1; otherwise the stored value is used |
| FailureAnalyzer.PassedIffExitZero | src/self_verifying_agent/failure_analyzer.py:16-19 | a test run's record counts as passed exactly when pytest exited with 0 |
| FailureAnalyzer.MissingInputsFail | src/self_verifying_agent/failure_analyzer.py:16-19 | the missing-inputs record and absent results both count as failures |
| FailureAnalyzer.AnalyzeFailures | src/self_verifying_agent/failure_analyzer.py:10-73 | the model is asked exactly when the tests did not pass; a pass stores the success record, a failure stores the strip-then-decode of the reply, unchecked; only `error_analysis` changes |
| CodeFixer.FixSnapshot | src/self_verifying_agent/code_fixer.py:57-60 | the fixer's history entry has event "fix_code", the analysis being answered, the pre-fix iteration, and `has_code` true |
| CodeFixer.FixCode | src/self_verifying_agent/code_fixer.py:8-64 | without code or analysis the state is unchanged; otherwise, in this order, one snapshot with the pre-fix iteration is appended, the iteration goes up by one and the code becomes the stripped reply text; tests, results and analysis are unchanged |
| Graph.NamesIdentifyNodes | src/self_verifying_agent/graph.py:22-27 | the six nodes are registered under six distinct names, so a streamed node name identifies its node |
| Graph.Successor | src/self_verifying_agent/graph.py:30-55 | the fixed edges: the first pass in order, and the fixer back to the test runner; only the analyser lacks a fixed edge, and nothing leads back to the parser |
| Graph.RouteAfterAnalysis | src/self_verifying_agent/graph.py:39-46 | a success analysis ends the run whatever the iteration; otherwise the run ends exactly when iteration >= max_iterations, else goes to the fixer; it raises exactly for a truthy analysis that is not a dict |
| Graph.RunTraceNext | src/self_verifying_agent/graph.py:36-55 | one more repair extends the trace by fixer, test runner, analyser |
| Graph.RunTraceCounts | src/self_verifying_agent/graph.py:30-55 | parser and generators run once each; the test runner and the analyser run once more than the fixer |
| Graph.RunTraceIsWalk | src/self_verifying_agent/graph.py:16-57 | every run trace starts at the entry point, each step follows an edge of the graph, and it ends at the analyser |
| Graph.Run | src/self_verifying_agent/graph.py:60-71 | when no analysis of a failing round below the bound decodes to null, the run ends; the nodes run in trace order (parser and generators once, first; test runner = fixer + 1); every test run uses the same generated tests; 0 <= iteration <= max(0, max_iterations), at the bound when exhausted; history entry k is the fixer's snapshot of round k; success iff the final analysis says success; exit 0 ends in success; success means exit 0 or a model answer saying success; with object-only decoding nothing is raised |
| Graph.RunNeverPassing | src/self_verifying_agent/graph.py:39-55 | with a decoder that yields only JSON objects (so never null), if no run passes and the model never says success, exactly max(0, max_iterations) repairs happen and the run ends exhausted |
| Graph.RunPassingFirst | src/self_verifying_agent/graph.py:39-42 | with any decoder, if the first test run passes, the run ends with success after parser, generators, test runner and analyser, with no repair |
| Graph.NullAnalysisRepeatsFixer | src/self_verifying_agent/graph.py:40-46 | a None analysis is not a success, so below the bound the router dispatches the fixer |
| Graph.LastWriterWins | src/self_verifying_agent/graph.py:70-74 | the merged state holds exactly the keys some update holds, each with the value of the last update holding it |
| Graph.FlattenAppend | src/self_verifying_agent/graph.py:85-87 | the pairs of two consecutive event streams are the first stream's pairs followed by the second's |
| Graph.CollectFinalState | src/self_verifying_agent/graph.py:70-76 | `final_state` is the key-wise merge of all pairs of all events, in stream order |
| Graph.StreamUpdates | src/self_verifying_agent/graph.py:85-87 | the yielded pairs are every pair of every event, in stream order |

## Left out

- Language-model calls, prompts and `llm_factory.py` are not modelled. Each reply is a value
  of the oracle, taken per round.
- Subprocess execution, the temporary directory and `sys.executable` are not modelled. The
  pytest process is an oracle value, and the directory is the map of files written into it.
- `json.loads` is an uninterpreted decoder. JSON numbers are integers only; floats are left
  out.
- `print` progress output is not modelled, nor are `app.py` (user interface) and
  `run_cli.py`.
- `str.strip()` is modelled on ASCII whitespace only. Python also strips other Unicode
  whitespace.
- A list-shaped reply to the parser or the analyser is not modelled: `strip_markdown` would
  raise `TypeError` on it. Those replies are strings here.
- A dict part whose "text" value is not a string is not modelled: the join would raise.
  Parts hold string values here.
- LangGraph internals are replaced by the explicit walk in `Graph.Run`. This covers
  compilation, channels and the recursion limit. It also covers any validation of field
  types when the state is rebuilt between nodes. The model keeps exactly what each stage
  stored.
- The exception in `Graph.RouteAfterAnalysis` is named for the router's own `.get` on a
  non-dict.
- The contents of the per-node updates are not modelled. `Graph.CollectFinalState` and
  `Graph.StreamUpdates` take the stream of events as given.
- Graph.Run: requires that no analysis of a failing round below the bound decodes to JSON
  `null`. A failing round is one whose tests fail after only failing rounds. At or past the
  bound a `None` analysis is routed to `END` and ends the run, which the model covers. Below
  the bound, a `None` analysis makes the fixer a no-op, while the router keeps dispatching it
  (`Graph.NullAnalysisRepeatsFixer`). The run then re-enters the test runner and the analyser
  at the same iteration, for as long as the re-asked analysis decodes to `null`.
- Graph.Oracle: the model's replies and pytest's results are taken per round (per iteration
  number). So the oracle cannot represent a second model call or test run in the same round,
  which is what follows a `None` analysis below the bound.
- Graph.Run and Graph.RunNeverPassing: these describe the walk without LangGraph's step cap.
  A long failing run with a large bound may hit that cap before the iteration reaches
  `max_iterations`; `app.py` offers bounds up to 10. Such a run then ends with LangGraph's
  error, not with the exhausted outcome.
- Graph.Run: `spec` and `max_iterations` are `const` fields, since no stage assigns them.
