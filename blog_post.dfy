/**
 * The article page: reading time over the whole content, the final pass
 * of the Markdown converter that wraps loose text in paragraphs, and the
 * tag list.
 */
module BlogPost {
  import opened Text
  import opened Blog

  /** The article's reading time: its white-space pieces at 200 a minute. */
  function EstimateReadTime(content: string): int
  {
    ReadMinutes(|SplitSpaceRuns(content)|, 200)
  }

  /** The reading time is at least a minute and grows with the word count. */
  lemma ReadTimeBounds(a: string, b: string)
    ensures EstimateReadTime(a) >= 1
    ensures |SplitSpaceRuns(a)| <= |SplitSpaceRuns(b)| ==> EstimateReadTime(a) <= EstimateReadTime(b)
  {
    if |SplitSpaceRuns(a)| <= |SplitSpaceRuns(b)| {
      ReadMinutesMonotone(|SplitSpaceRuns(a)|, |SplitSpaceRuns(b)|, 200);
    }
  }

  const ParagraphOpen := "<p " + "class=\"text-gray-700 leading-relaxed mb-4\">"
  const ParagraphClose := "</p>"

  /** A block the earlier passes already turned into a block element. */
  predicate IsBlockElement(s: string)
  {
    StartsWith(s, "<h") || StartsWith(s, "<ul") || StartsWith(s, "<ol")
    || StartsWith(s, "<pre") || StartsWith(s, "<blockquote") || StartsWith(s, "<hr")
  }

  /** One `\n\n`-separated block: blank blocks vanish, block elements are kept trimmed, other text becomes a paragraph. */
  function WrapBlock(block: string): (r: string)
    ensures r == "" <==> AllSpace(block)
  {
    var trimmed := Trim(block);
    if trimmed == "" then ""
    else if IsBlockElement(trimmed) then trimmed
    else ParagraphOpen + trimmed + ParagraphClose
  }

  /** Removes a paragraph wrapper, if there is one. */
  function Unwrap(r: string): string
  {
    if |r| >= |ParagraphOpen| + |ParagraphClose| && StartsWith(r, ParagraphOpen) && r[|r| - |ParagraphClose|..] == ParagraphClose
    then r[|ParagraphOpen|..|r| - |ParagraphClose|]
    else r
  }

  /**
   * No text is lost or altered: unwrapping a non-blank block's output gives
   * the trimmed block back, and only text that is not a block element gets a
   * paragraph.
   */
  lemma WrapBlockKeepsText(block: string)
    requires !AllSpace(block)
    ensures Unwrap(WrapBlock(block)) == Trim(block)
    ensures IsBlockElement(Trim(block)) <==> WrapBlock(block) == Trim(block)
  {
    var t := Trim(block);
    if IsBlockElement(t) {
      BlockElementNotParagraph(t);
    } else {
      UnwrapWrapped(t);
    }
  }

  lemma BlockElementNotParagraph(t: string)
    requires IsBlockElement(t)
    ensures !StartsWith(t, ParagraphOpen)
  {
    assert ParagraphOpen[..3] == "<p ";
    assert t[1] != 'p' || t[2] != ' ';
  }

  lemma UnwrapWrapped(t: string)
    ensures Unwrap(ParagraphOpen + t + ParagraphClose) == t
    ensures ParagraphOpen + t + ParagraphClose != t
  {
    var r := ParagraphOpen + t + ParagraphClose;
    assert |r| == |ParagraphOpen| + |t| + |ParagraphClose|;
    assert r[..|ParagraphOpen|] == ParagraphOpen;
    assert r[|r| - |ParagraphClose|..] == ParagraphClose;
    assert r[|ParagraphOpen|..|r| - |ParagraphClose|] == t;
  }

  /** The final pass: blocks split at blank lines, each wrapped, joined with a newline. */
  function WrapParagraphs(html: string): (r: string)
  {
    var blocks := SplitOn(html, "\n\n");
    JoinWith(seq(|blocks|, i requires 0 <= i < |blocks| => WrapBlock(blocks[i])), "\n")
  }

  /** Text without a blank line is one block. */
  lemma SingleBlock(html: string)
    requires forall i :: 0 <= i < |html| - 1 ==> !(html[i] == '\n' && html[i + 1] == '\n')
    ensures WrapParagraphs(html) == WrapBlock(html)
  {
    NoSeparatorOneBlock(html);
  }

  lemma {:induction false} NoSeparatorOneBlock(s: string)
    requires forall i :: 0 <= i < |s| - 1 ==> !(s[i] == '\n' && s[i + 1] == '\n')
    ensures SplitOn(s, "\n\n") == [s]
    decreases |s|
  {
    if |s| >= 2 {
      assert s[..2] != "\n\n" by {
        assert !(s[0] == '\n' && s[1] == '\n');
      }
      var tail := s[1..];
      assert forall i :: 0 <= i < |tail| ==> tail[i] == s[i + 1];
      NoSeparatorOneBlock(tail);
      assert [s[0]] + tail == s;
    }
  }

  /** The tags of an article, as on the list cards. */
  function ArticleTags(tags: string): seq<string>
  {
    Tags(tags)
  }
}
