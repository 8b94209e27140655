/** `generate_tests`: ask the model for a pytest module written from the specification alone. */
module TestGenerator {
  import opened Wrappers
  import opened Utils
  import opened Replies
  import opened State

  /** The module the generated tests are told to import the function from. */
  const ImportedModule: string := "impl"

  /**
   * `reply` is the model's answer. `tests` becomes the stripped text of the reply; it has
   * no surrounding whitespace, and no other field changes.
   */
  method GenerateTests(state: AgentState, reply: Content)
    modifies state`tests
    ensures state.tests == Some(StripMarkdown(TextOf(reply)))
    ensures NoOuterSpace(state.tests.value)
  {
    var tests := TextOf(reply);
    state.tests := Some(StripMarkdown(tests));
  }

}
