/** `parse_spec`: ask the model for a structured specification and store what comes back. */
module SpecParser {
  import opened Json
  import opened Utils
  import opened Recovery
  import opened State

  /**
   * `reply` is the model's answer. The stripped reply is decoded; when it does not decode,
   * `{"raw": <stripped reply>}` is stored instead. `parsed_spec` is always overwritten and
   * is the only field that changes.
   */
  method ParseSpec(state: AgentState, reply: string, decode: Decoder)
    modifies state`parsedSpec
    ensures state.parsedSpec == StripThenDecode(decode, reply)
  {
    var content := StripMarkdown(reply);
    var parsed := DecodeOrRaw(decode, content);
    state.parsedSpec := parsed;
  }

}
