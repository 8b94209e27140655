/**
 * The shape of a language-model reply (`resp.content`) and the text the generation stages
 * take from it: a string is used as it is; for a list, only dict parts with a "text" key
 * contribute, concatenated in order.
 */
module Replies {

  /** One element of a list-shaped reply: a dict (its string-valued entries) or anything else. */
  datatype Part = DictPart(fields: map<string, string>) | OtherPart

  /** `resp.content`: a string or a list of parts. */
  datatype Content = Text(text: string) | Parts(parts: seq<Part>)

  /** `isinstance(part, dict) and "text" in part` */
  predicate HasText(p: Part) {
    p.DictPart? && "text" in p.fields
  }

  /** What one part contributes to the join. */
  function PartText(p: Part): string {
    if HasText(p) then p.fields["text"] else ""
  }

  /** `"".join(part["text"] for part in parts if isinstance(part, dict) and "text" in part)` */
  function JoinParts(parts: seq<Part>): (r: string)
    ensures (forall i :: 0 <= i < |parts| ==> !HasText(parts[i])) ==> r == ""
  {
    if parts == [] then "" else PartText(parts[0]) + JoinParts(parts[1..])
  }

  /** The join of two lists of parts is the join of the first followed by the join of the second. */
  lemma {:induction false} JoinAppend(a: seq<Part>, b: seq<Part>)
    ensures JoinParts(a + b) == JoinParts(a) + JoinParts(b)
  {
    if a == [] {
      assert a + b == b;
    } else {
      assert (a + b)[1..] == a[1..] + b;
      JoinAppend(a[1..], b);
    }
  }

  /** A part without a "text" entry contributes nothing, wherever it stands. */
  lemma NonTextPartIgnored(a: seq<Part>, p: Part, b: seq<Part>)
    requires !HasText(p)
    ensures JoinParts(a + [p] + b) == JoinParts(a + b)
  {
    JoinAppend(a + [p], b);
    JoinAppend(a, [p]);
    JoinAppend(a, b);
  }

  /** A dict part with a "text" entry contributes exactly that text, in its place. */
  lemma TextPartKept(a: seq<Part>, p: Part, b: seq<Part>)
    requires HasText(p)
    ensures JoinParts(a + [p] + b) == JoinParts(a) + p.fields["text"] + JoinParts(b)
  {
    JoinAppend(a + [p], b);
    JoinAppend(a, [p]);
    assert JoinParts([p]) == p.fields["text"] + JoinParts([]);
  }

  /** The text of a reply: the string itself, or the join of its text parts. */
  function TextOf(content: Content): (r: string)
    ensures content.Text? ==> r == content.text
    ensures content.Parts? ==> r == JoinParts(content.parts)
  {
    match content
    case Text(s) => s
    case Parts(parts) => JoinParts(parts)
  }

}
