/**
 * Stories written from a suggested question start with a marker, then the
 * question, a blank line ("\n\n") and the answer. `FormatStory` splits such a
 * story into question and answer (the markup around them is not modelled);
 * `GetStoryPreview` is the preview documented for story cards: the answer
 * part, cut to `maxLength` characters followed by "...". The home page does
 * not call it; its cards cut the whole story inline.
 */
module FormatStory {
  import opened Wrappers
  import opened Text

  /** The marker exactly as the source writes it: the four characters
      U+011F U+0178 U+201C U+0020. */
  const Marker: string := "\U{011F}\U{0178}\U{201C} "
  const Separator: string := "\n\n"
  const Ellipsis: string := "..."

  datatype Formatted =
    | QuestionAnswer(question: string, answer: string)
    | Plain(text: string)

  /** `formatStory`, returning the split instead of markup. */
  function FormatStory(story: string): Formatted {
    if StartsWith(story, Marker) then
      var parts := Split(story, Separator);
      if |parts| >= 2 then
        QuestionAnswer(ReplaceFirst(parts[0], Marker, ""), Join(parts[1..], Separator))
      else Plain(story)
    else Plain(story)
  }

  /** The text `getStoryPreview` truncates (`previewText` before the cut). */
  function PreviewText(story: string): string {
    if StartsWith(story, Marker) then
      var parts := Split(story, Separator);
      if |parts| >= 2 then Join(parts[1..], Separator) else story
    else story
  }

  /** `getStoryPreview(story, maxLength = 100)`. */
  function GetStoryPreview(story: string, maxLength: nat := 100): (r: string)
    ensures |r| <= maxLength + |Ellipsis|
  {
    var text := PreviewText(story);
    if |text| > maxLength then text[..maxLength] + Ellipsis else text
  }

  /** The first blank line of a marked story lies after the marker, since
      the marker has no line feed in it. */
  lemma SeparatorAfterMarker(story: string, k: nat)
    requires StartsWith(story, Marker) && IndexOf(story, Separator) == Some(k)
    ensures |Marker| <= k
  {
    assert forall i :: 0 <= i < |Marker| ==> story[i] == Marker[i] && Marker[i] != '\n';
    assert OccursAt(story, Separator, k);
    assert story[k] == story[k..k + 2][0] == '\n';
  }

  /** A story without the marker and within the limit is shown unchanged. */
  lemma ShortPlainStoryUnchanged(story: string, maxLength: nat)
    requires !StartsWith(story, Marker) && |story| <= maxLength
    ensures GetStoryPreview(story, maxLength) == story
  {
  }

  /** When the preview is cut, it is the first maxLength characters of the
      preview text followed by "...", maxLength + 3 characters in all;
      otherwise it is the preview text itself. */
  lemma PreviewTruncation(story: string, maxLength: nat)
    ensures var text := PreviewText(story); var r := GetStoryPreview(story, maxLength);
      && (|text| > maxLength ==>
            |r| == maxLength + 3 && r[..maxLength] == text[..maxLength] && r[maxLength..] == "...")
      && (|text| <= maxLength ==> r == text)
  {
  }

  /** For a marked story with a blank line, the preview text is exactly what
      follows the first blank line; with no blank line it is the whole story,
      marker included. */
  lemma PreviewTextOfMarkedStory(story: string)
    requires StartsWith(story, Marker)
    ensures IndexOf(story, Separator).Some? ==>
      PreviewText(story) == story[IndexOf(story, Separator).value + |Separator|..]
    ensures IndexOf(story, Separator).None? ==> PreviewText(story) == story
  {
    SplitHasTwoPiecesIff(story, Separator);
    if IndexOf(story, Separator).Some? {
      SplitTailJoin(story, Separator, IndexOf(story, Separator).value);
    }
  }

  /** The pieces of a marked story whose first blank line is at `k`: the
      question runs from the end of the marker to `k` and has no blank line. */
  lemma MarkedStoryPieces(story: string, k: nat)
    requires StartsWith(story, Marker) && IndexOf(story, Separator) == Some(k)
    ensures |Marker| <= k
    ensures ReplaceFirst(story[..k], Marker, "") == story[|Marker|..k]
    ensures !Contains(story[|Marker|..k], Separator)
    ensures story == Marker + story[|Marker|..k] + Separator + story[k + |Separator|..]
  {
    SeparatorAfterMarker(story, k);
    NoEarlierOccurrence(story, Separator, k);
    var first := story[..k];
    assert StartsWith(first, Marker) by {
      assert first[..|Marker|] == story[..|Marker|];
    }
    var q := first[|Marker|..];
    assert q == story[|Marker|..k];
    assert !Contains(q, Separator) by {
      IndexOfIsFirst(first, Separator);
      if Contains(q, Separator) {
        var j := IndexOf(q, Separator).value;
        assert q[j..j + 2] == first[|Marker| + j..|Marker| + j + 2];
        assert OccursAt(first, Separator, |Marker| + j);
        assert false;
      }
    }
    assert story == first + story[k..k + 2] + story[k + 2..];
    assert first == Marker + q;
  }

  /** `formatStory` splits exactly the marked stories that contain a blank
      line. The question is the first piece without its marker, it has no
      blank line in it, the answer is the preview's untruncated text, and
      marker, question, blank line and answer put together give the story
      back. Every other story is returned whole. */
  lemma FormatStorySplit(story: string)
    ensures FormatStory(story).QuestionAnswer?
      <==> StartsWith(story, Marker) && Contains(story, Separator)
    ensures FormatStory(story).Plain? ==> FormatStory(story).text == story
    ensures FormatStory(story).QuestionAnswer? ==>
      var f := FormatStory(story);
      && f.answer == PreviewText(story)
      && !Contains(f.question, Separator)
      && story == Marker + f.question + Separator + f.answer
  {
    SplitHasTwoPiecesIff(story, Separator);
    if StartsWith(story, Marker) && Contains(story, Separator) {
      var k := IndexOf(story, Separator).value;
      SplitTailJoin(story, Separator, k);
      MarkedStoryPieces(story, k);
      assert FormatStory(story) == QuestionAnswer(story[|Marker|..k], story[k + |Separator|..]);
    }
  }
}
