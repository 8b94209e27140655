/** `generate_code`: ask the model for an implementation and store it as the current code. */
module CodeGenerator {
  import opened Wrappers
  import opened Utils
  import opened Replies
  import opened State

  /**
   * `reply` is the model's answer. `code` becomes the stripped text of the reply, whatever
   * it held before; it has no surrounding whitespace, and no other field changes.
   */
  method GenerateCode(state: AgentState, reply: Content)
    modifies state`code
    ensures state.code == Some(StripMarkdown(TextOf(reply)))
    ensures NoOuterSpace(state.code.value)
  {
    var code := TextOf(reply);
    state.code := Some(StripMarkdown(code));
  }

}
