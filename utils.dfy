/**
 * `strip_markdown`: one `re.search` with the pattern ^```(?:[a-zA-Z+]*)?\n?(.*?)\n?```$
 * under DOTALL and MULTILINE, then `str.strip()` of group 1, or of the whole text when
 * nothing matches.
 *
 * The search is modelled position by position. For an opening fence at a line start `s`,
 * the backtracking order of the pattern (the greedy tag, then the greedy optional newline,
 * then the lazy body tried from shortest to longest, each with the greedy optional newline
 * before the closing fence) makes group 1 start after the longest tag and, when a newline
 * follows the tag, after that newline, and end at the first position where the closing
 * `\n?```$` matches. A shorter tag only moves the start of the body back over tag letters,
 * where no closing part can begin. Skipping the newline after the tag moves it back over
 * that newline, where a closing `\n```$` can begin; but then the fence after the newline
 * also closes at the next position, and the attempt that consumes the newline, which comes
 * first, already matches there.
 */
module Utils {
  import opened Wrappers

  /** ASCII whitespace as `str.strip()` removes it: space, \t \n \v \f \r, and \x1c to \x1f. */
  predicate IsSpace(c: char) {
    c == ' ' || ('\t' <= c <= '\r') || ('\U{1C}' <= c <= '\U{1F}')
  }

  predicate AllSpace(s: string) {
    forall i :: 0 <= i < |s| ==> IsSpace(s[i])
  }

  /** Neither the first nor the last character is whitespace. */
  predicate NoOuterSpace(s: string) {
    s == [] || (!IsSpace(s[0]) && !IsSpace(s[|s| - 1]))
  }

  /** `r` is a contiguous piece of `s`. */
  ghost predicate IsSlice(r: string, s: string) {
    exists i, j :: 0 <= i <= j <= |s| && r == s[i..j]
  }

  /** A piece of a piece of `text` is a piece of `text`. */
  lemma SliceOfSlice(text: string, a: nat, c: nat, i: nat, j: nat)
    requires a <= c <= |text| && i <= j <= c - a
    ensures IsSlice(text[a..c][i..j], text)
  {
    var r := text[a..c][i..j];
    forall k | 0 <= k < j - i ensures r[k] == text[a + i..a + j][k] {
    }
    assert r == text[a + i..a + j];
  }

  /** Length of the run of whitespace at the start of `s`. */
  function LeadingSpace(s: string): (n: nat)
    ensures n <= |s|
    ensures forall k :: 0 <= k < n ==> IsSpace(s[k])
    ensures n < |s| ==> !IsSpace(s[n])
  {
    if s == [] || !IsSpace(s[0]) then 0 else 1 + LeadingSpace(s[1..])
  }

  /** Length of the run of whitespace at the end of `s`. */
  function TrailingSpace(s: string): (n: nat)
    ensures n <= |s|
    ensures forall k :: |s| - n <= k < |s| ==> IsSpace(s[k])
    ensures n < |s| ==> !IsSpace(s[|s| - n - 1])
  {
    if s == [] || !IsSpace(s[|s| - 1]) then 0 else 1 + TrailingSpace(s[..|s| - 1])
  }

  /**
   * Where `str.strip()` cuts `s`: everything before `i` and from `j` on is whitespace, and
   * `s[i..j]` neither starts nor ends with whitespace.
   */
  function StripBounds(s: string): (b: (nat, nat))
    ensures b.0 <= b.1 <= |s|
    ensures AllSpace(s[..b.0]) && AllSpace(s[b.1..])
    ensures NoOuterSpace(s[b.0..b.1])
  {
    var i := LeadingSpace(s);
    var j := |s| - TrailingSpace(s[i..]);
    assert AllSpace(s[j..]) by {
      forall k | j <= k < |s| ensures IsSpace(s[k]) {
        assert s[k] == s[i..][k - i];
      }
    }
    assert i < j ==> s[j - 1] == s[i..][|s[i..]| - TrailingSpace(s[i..]) - 1];
    (i, j)
  }

  /** `str.strip()`: the piece of `s` left once its leading and trailing whitespace is gone. */
  function Strip(s: string): (r: string)
    ensures NoOuterSpace(r)
    ensures |r| <= |s|
  {
    var b := StripBounds(s);
    s[b.0..b.1]
  }

  /** Text without leading or trailing whitespace is its own strip. */
  lemma {:induction false} StripKeeps(s: string)
    requires NoOuterSpace(s)
    ensures Strip(s) == s
  {
    if s != [] {
      assert LeadingSpace(s) == 0;
      assert s[0..] == s;
      assert TrailingSpace(s) == 0;
    }
  }

  /** `^` under MULTILINE: the start of the text or just after a newline. */
  predicate LineStart(t: string, i: int) {
    i == 0 || (0 < i <= |t| && t[i - 1] == '\n')
  }

  /** `$` under MULTILINE: the end of the text or just before a newline. */
  predicate LineEnd(t: string, i: int) {
    i == |t| || (0 <= i < |t| && t[i] == '\n')
  }

  /** Three backticks start at `i`. */
  predicate FenceAt(t: string, i: int) {
    0 <= i && i + 3 <= |t| && t[i] == '`' && t[i + 1] == '`' && t[i + 2] == '`'
  }

  predicate NoFence(t: string) {
    forall i :: 0 <= i < |t| ==> !FenceAt(t, i)
  }

  /** The characters of the info string `[a-zA-Z+]`. */
  predicate IsTagChar(c: char) {
    ('a' <= c <= 'z') || ('A' <= c <= 'Z') || c == '+'
  }

  /** End of the longest run of tag characters from `p`: the greedy `(?:[a-zA-Z+]*)?`. */
  function TagEnd(t: string, p: nat): (q: nat)
    requires p <= |t|
    ensures p <= q <= |t|
    ensures forall k :: p <= k < q ==> IsTagChar(t[k])
    ensures q < |t| ==> !IsTagChar(t[q])
    decreases |t| - p
  {
    if p < |t| && IsTagChar(t[p]) then TagEnd(t, p + 1) else p
  }

  /**
   * Where group 1 starts for an opening fence at `s`: after the longest tag, and after the
   * newline that follows it when there is one.
   */
  function BodyStart(t: string, s: nat): (b: nat)
    requires s + 3 <= |t|
    ensures s + 3 <= b <= |t|
    ensures var q := TagEnd(t, s + 3);
      if q < |t| && t[q] == '\n' then b == q + 1 else b == q
  {
    var q := TagEnd(t, s + 3);
    if q < |t| && t[q] == '\n' then q + 1 else q
  }

  /** `\n?```$` matches at `e`, group 1 ending at `e`; the newline is tried first. */
  predicate ClosesAt(t: string, e: int) {
    || (0 <= e < |t| && t[e] == '\n' && FenceAt(t, e + 1) && LineEnd(t, e + 4))
    || (FenceAt(t, e) && LineEnd(t, e + 3))
  }

  /** The lazy `(.*?)`: the first position from `from` on at which the closing part matches. */
  function FirstClose(t: string, from: nat): (r: Option<nat>)
    requires from <= |t|
    ensures r.Some? ==> from <= r.value <= |t| && ClosesAt(t, r.value)
    ensures r.Some? ==> forall e :: from <= e < r.value ==> !ClosesAt(t, e)
    ensures r.None? ==> forall e :: from <= e <= |t| ==> !ClosesAt(t, e)
    decreases |t| - from
  {
    if ClosesAt(t, from) then Some(from)
    else if from == |t| then None
    else FirstClose(t, from + 1)
  }

  /** The match of the whole pattern at `s`, as the bounds of group 1. */
  function MatchAt(t: string, s: nat): (m: Option<(nat, nat)>)
    requires s <= |t|
    ensures m.Some? ==> LineStart(t, s) && FenceAt(t, s)
    ensures m.Some? ==> s + 3 <= m.value.0 <= m.value.1 <= |t| && ClosesAt(t, m.value.1)
  {
    if LineStart(t, s) && FenceAt(t, s) then
      var b := BodyStart(t, s);
      match FirstClose(t, b)
      case Some(e) => Some((b, e))
      case None => None
    else None
  }

  /** `re.search` from `s` on: the match at the leftmost position where there is one. */
  function Search(t: string, s: nat): (m: Option<(nat, nat)>)
    requires s <= |t|
    ensures m.Some? ==> s <= m.value.0 <= m.value.1 <= |t|
    decreases |t| - s
  {
    var here := MatchAt(t, s);
    if here.Some? then here
    else if s == |t| then None
    else Search(t, s + 1)
  }

  /**
   * `strip_markdown`: the stripped body of the first fenced block, or the stripped text.
   * The result is always a piece of the input with no whitespace at either end.
   */
  function StripMarkdown(text: string): (r: string)
    ensures NoOuterSpace(r)
    ensures IsSlice(r, text)
    ensures |r| <= |text|
  {
    match Search(text, 0)
    case Some((b, e)) =>
      var body := text[b..e];
      var (i, j) := StripBounds(body);
      SliceOfSlice(text, b, e, i, j);
      body[i..j]
    case None =>
      var (i, j) := StripBounds(text);
      SliceOfSlice(text, 0, |text|, i, j);
      text[i..j]
  }

  /** When the search matches, the result is group 1, stripped. */
  lemma StripMarkdownOfMatch(t: string, b: nat, e: nat)
    requires Search(t, 0) == Some((b, e))
    ensures b <= e <= |t| && StripMarkdown(t) == Strip(t[b..e])
  {
  }

  /** The empty string maps to the empty string. */
  lemma StripMarkdownEmpty()
    ensures StripMarkdown("") == ""
  {
  }

  /** With no match at any position from `s` on, the search finds nothing. */
  lemma {:induction false} SearchNone(t: string, s: nat)
    requires s <= |t|
    requires forall i :: s <= i <= |t| ==> MatchAt(t, i).None?
    ensures Search(t, s).None?
    decreases |t| - s
  {
    if s < |t| {
      SearchNone(t, s + 1);
    }
  }

  /** The search returns the match at the first position where the pattern matches. */
  lemma {:induction false} SearchFirst(t: string, s: nat, p: nat)
    requires s <= p <= |t|
    requires forall i :: s <= i < p ==> MatchAt(t, i).None?
    requires MatchAt(t, p).Some?
    ensures Search(t, s) == MatchAt(t, p)
    decreases p - s
  {
    if s < p {
      SearchFirst(t, s + 1, p);
    }
  }

  /** Text containing no "```" comes back as `text.strip()`. */
  lemma NoFenceIsStrip(t: string)
    requires NoFence(t)
    ensures StripMarkdown(t) == Strip(t)
  {
    SearchNone(t, 0);
  }

  /**
   * The search in position terms: no fence before a line start `s` that opens a fence with
   * tag `t[s+3..q]` and a newline at `q`, no fence in the body up to the newline at `c`, and
   * a closing fence at `c + 1` that ends a line. Group 1 is then `t[q+1..c]`.
   */
  lemma {:induction false} SearchFindsBlock(t: string, s: nat, q: nat, c: nat)
    requires s + 3 <= q < c && c + 4 <= |t|
    requires forall i :: 0 <= i < s ==> !FenceAt(t, i)
    requires LineStart(t, s) && FenceAt(t, s)
    requires forall k :: s + 3 <= k < q ==> IsTagChar(t[k])
    requires t[q] == '\n'
    requires forall i :: q + 1 <= i < c ==> !FenceAt(t, i)
    requires t[c] == '\n' && FenceAt(t, c + 1) && LineEnd(t, c + 4)
    ensures Search(t, 0) == Some((q + 1, c))
  {
    forall i | 0 <= i < s ensures MatchAt(t, i).None? {
    }
    assert TagEnd(t, s + 3) == q;
    assert BodyStart(t, s) == q + 1;
    forall e | q + 1 <= e < c ensures !ClosesAt(t, e) {
      assert !FenceAt(t, e);
      assert e + 1 < c ==> !FenceAt(t, e + 1);
      assert e + 1 == c ==> !FenceAt(t, e + 1);
    }
    assert ClosesAt(t, c);
    assert FirstClose(t, q + 1) == Some(c);
    SearchFirst(t, 0, s);
  }

  /** A fence-free text followed by a newline has no fence, whatever comes after. */
  lemma NoFenceBefore(pre: string, rest: string, s: nat)
    requires pre == [] || pre[|pre| - 1] == '\n'
    requires NoFence(pre)
    requires s == |pre|
    ensures forall i :: 0 <= i < s ==> !FenceAt(pre + rest, i)
  {
    var t := pre + rest;
    forall i | 0 <= i < s ensures !FenceAt(t, i) {
      if i + 3 <= s {
        assert t[i] == pre[i] && t[i + 1] == pre[i + 1] && t[i + 2] == pre[i + 2];
        assert !FenceAt(pre, i);
      } else {
        assert t[s - 1] == pre[s - 1] == '\n';
      }
    }
  }

  /** Where the pieces of a fenced block sit in the whole text. */
  lemma Layout(pre: string, tag: string, body: string, post: string) returns (t: string, s: nat, q: nat, c: nat)
    ensures t == pre + "```" + tag + "\n" + body + "\n```" + post
    ensures s == |pre| && q == s + 3 + |tag| && c == q + 1 + |body| && |t| == c + 4 + |post|
    ensures t[..s] == pre && t[s..s + 3] == "```" && t[s + 3..q] == tag && t[q] == '\n'
    ensures t[q + 1..c] == body && t[c..] == "\n```" + post
  {
    t := pre + "```" + tag + "\n" + body + "\n```" + post;
    s, q, c := |pre|, |pre| + 3 + |tag|, |pre| + 3 + |tag| + 1 + |body|;
    assert t == pre + ("```" + (tag + ("\n" + (body + ("\n```" + post)))));
  }

  /** The closing newline and fence, ending a line, sit at `c` of `t`. */
  lemma CloseFacts(t: string, c: nat, post: string)
    requires c <= |t| && t[c..] == "\n```" + post
    requires post == [] || post[0] == '\n'
    ensures c + 4 <= |t| && t[c] == '\n' && FenceAt(t, c + 1) && LineEnd(t, c + 4)
  {
    var close := "\n```" + post;
    assert t[c] == t[c..][0] == '\n';
    assert t[c + 1] == close[1] && t[c + 2] == close[2] && t[c + 3] == close[3];
    if post != [] {
      assert t[c + 4] == close[4] == post[0];
    }
  }

  /** No fence starts inside a fence-free body that a newline at `c` follows. */
  lemma BodyFacts(t: string, b: nat, c: nat)
    requires b <= c < |t| && NoFence(t[b..c]) && t[c] == '\n'
    ensures forall i :: b <= i < c ==> !FenceAt(t, i)
  {
    var body := t[b..c];
    forall i | b <= i < c ensures !FenceAt(t, i) {
      if i + 3 <= c {
        assert t[i] == body[i - b] && t[i + 1] == body[i - b + 1] && t[i + 2] == body[i - b + 2];
        assert !FenceAt(body, i - b);
      }
    }
  }

  /** The opening fence of a block laid out after fence-free prose ending a line. */
  lemma OpeningFacts(t: string, pre: string, tag: string, s: nat, q: nat)
    requires pre == [] || pre[|pre| - 1] == '\n'
    requires NoFence(pre)
    requires forall k :: 0 <= k < |tag| ==> IsTagChar(tag[k])
    requires s == |pre| && q == s + 3 + |tag| && q <= |t|
    requires t[..s] == pre && t[s..s + 3] == "```" && t[s + 3..q] == tag
    ensures forall i :: 0 <= i < s ==> !FenceAt(t, i)
    ensures LineStart(t, s) && FenceAt(t, s)
    ensures forall k :: s + 3 <= k < q ==> IsTagChar(t[k])
  {
    NoFenceBefore(pre, t[s..], s);
    assert pre + t[s..] == t by { assert t == t[..s] + t[s..]; }
    assert LineStart(t, s) by {
      if s > 0 { assert t[s - 1] == t[..s][s - 1]; }
    }
    assert FenceAt(t, s) by {
      var f := t[s..s + 3];
      assert t[s] == f[0] && t[s + 1] == f[1] && t[s + 2] == f[2];
    }
    forall k | s + 3 <= k < q ensures IsTagChar(t[k]) {
      assert t[k] == t[s + 3..q][k - s - 3];
    }
  }

  /**
   * A fence opening at a line start and closing at the first "```" that ends a line is
   * extracted, whatever prose surrounds it: the result is `body.strip()`.
   */
  lemma ExtractsFencedBlock(pre: string, tag: string, body: string, post: string)
    requires pre == [] || pre[|pre| - 1] == '\n'
    requires NoFence(pre)
    requires forall k :: 0 <= k < |tag| ==> IsTagChar(tag[k])
    requires NoFence(body)
    requires post == [] || post[0] == '\n'
    ensures StripMarkdown(pre + "```" + tag + "\n" + body + "\n```" + post) == Strip(body)
  {
    var t, s, q, c := Layout(pre, tag, body, post);
    OpeningFacts(t, pre, tag, s, q);
    CloseFacts(t, c, post);
    BodyFacts(t, q + 1, c);
    SearchFindsBlock(t, s, q, c);
    StripMarkdownOfMatch(t, q + 1, c);
  }

  /** The plain case "```" + tag + "\n" + body + "\n```" gives `body.strip()`. */
  lemma FencedBlock(tag: string, body: string)
    requires forall k :: 0 <= k < |tag| ==> IsTagChar(tag[k])
    requires NoFence(body)
    ensures StripMarkdown("```" + tag + "\n" + body + "\n```") == Strip(body)
  {
    var t := "```" + tag + "\n" + body + "\n```";
    ExtractsFencedBlock("", tag, body, "");
    assert "" + "```" + tag + "\n" + body + "\n```" + "" == t by {
      assert "" + "```" == "```";
      assert t + "" == t;
    }
  }


}
