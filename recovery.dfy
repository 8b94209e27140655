/**
 * The recovery applied by the two stages that expect structured output (the specification
 * parser and the failure analyzer): strip a markdown fence, then decode, falling back to
 * `{"raw": <stripped text>}`.
 */
module Recovery {
  import opened Wrappers
  import opened Json
  import opened Utils

  /** `strip_markdown` then decode-or-`raw`; never fails, whatever the reply. */
  function StripThenDecode(decode: Decoder, reply: string): (r: Json)
    ensures decode(StripMarkdown(reply)).Some? ==> r == decode(StripMarkdown(reply)).value
    ensures decode(StripMarkdown(reply)).None? ==> r == Raw(StripMarkdown(reply))
  {
    DecodeOrRaw(decode, StripMarkdown(reply))
  }

  /** A reply that is prose without a fence is kept, stripped, under the single key "raw". */
  lemma ProseFallsBackToRaw(decode: Decoder, reply: string)
    requires NoFence(reply)
    requires decode(Strip(reply)).None?
    ensures StripThenDecode(decode, reply) == JObj(map["raw" := JStr(Strip(reply))])
  {
    NoFenceIsStrip(reply);
  }

}
