/**
 * The speech-transcript accumulator of the voice recorder component.
 *
 * The engine reports, on every event, the whole result list of the current
 * recognition session. The accumulator keeps the committed text (`baseText`),
 * a cursor (`lastProcessedIndex`) below which results are never read again,
 * the interim preview and the listening flag. `OnResult` is the `onresult`
 * handler and `Sync` the effect that runs when listening starts or stops or
 * when the text shown by the host changes.
 */
module VoiceRecorder {
  import opened Wrappers

  /** One entry of the engine's result list: the text of its best
      alternative and whether the engine has finalised it. */
  datatype RecognitionResult = RecognitionResult(transcript: string, isFinal: bool)

  /** What the final results at indices lo..hi-1 add: each final transcript
      followed by one space, in index order. */
  function FinalText(rs: seq<RecognitionResult>, lo: nat, hi: nat): string
    requires hi <= |rs|
    decreases hi
  {
    if hi <= lo then ""
    else FinalText(rs, lo, hi - 1) + (if rs[hi - 1].isFinal then rs[hi - 1].transcript + " " else "")
  }

  /** The non-final transcripts at indices lo..hi-1, concatenated without separator. */
  function InterimText(rs: seq<RecognitionResult>, lo: nat, hi: nat): string
    requires hi <= |rs|
    decreases hi
  {
    if hi <= lo then ""
    else InterimText(rs, lo, hi - 1) + (if rs[hi - 1].isFinal then "" else rs[hi - 1].transcript)
  }

  /** The cursor after reading indices lo..hi-1 starting from `cursor`: one past
      the last final result read, or `cursor` when none was final. */
  function NextCursor(rs: seq<RecognitionResult>, lo: nat, hi: nat, cursor: nat): (c: nat)
    requires hi <= |rs|
    ensures c == cursor || lo < c <= hi
    decreases hi
  {
    if hi <= lo then cursor
    else if rs[hi - 1].isFinal then hi
    else NextCursor(rs, lo, hi - 1, cursor)
  }

  predicate HasFinal(rs: seq<RecognitionResult>, lo: nat, hi: nat)
    requires hi <= |rs|
  {
    exists i :: lo <= i < hi && rs[i].isFinal
  }

  predicate AllFinal(rs: seq<RecognitionResult>, lo: nat, hi: nat)
    requires hi <= |rs|
  {
    forall i :: lo <= i < hi ==> rs[i].isFinal
  }

  /** The appended text is non-empty exactly when some result read was final. */
  lemma {:induction false} FinalTextNonEmptyIff(rs: seq<RecognitionResult>, lo: nat, hi: nat)
    requires hi <= |rs|
    ensures FinalText(rs, lo, hi) != "" <==> HasFinal(rs, lo, hi)
    decreases hi
  {
    if hi > lo {
      FinalTextNonEmptyIff(rs, lo, hi - 1);
      if rs[hi - 1].isFinal {
        assert |FinalText(rs, lo, hi)| > 0;
      } else {
        assert HasFinal(rs, lo, hi) ==> HasFinal(rs, lo, hi - 1);
      }
    }
  }

  /** The cursor never moves back; it stays put when nothing final was read,
      and otherwise lands one past the last final result, leaving no final
      result between it and `hi`. */
  lemma {:induction false} NextCursorIsPastLastFinal(rs: seq<RecognitionResult>, lo: nat, hi: nat)
    requires hi <= |rs|
    ensures var c := NextCursor(rs, lo, hi, lo);
      && c >= lo
      && (!HasFinal(rs, lo, hi) ==> c == lo)
      && (HasFinal(rs, lo, hi) ==> lo < c <= hi && rs[c - 1].isFinal && !HasFinal(rs, c, hi))
    decreases hi
  {
    if hi > lo && !rs[hi - 1].isFinal {
      NextCursorIsPastLastFinal(rs, lo, hi - 1);
      assert HasFinal(rs, lo, hi) ==> HasFinal(rs, lo, hi - 1);
      var c := NextCursor(rs, lo, hi - 1, lo);
      assert HasFinal(rs, lo, hi - 1) ==> !HasFinal(rs, c, hi);
    }
  }

  /** Reading lo..hi splits at any midpoint. */
  lemma {:induction false} FinalTextSplits(rs: seq<RecognitionResult>, lo: nat, mid: nat, hi: nat)
    requires lo <= mid <= hi <= |rs|
    ensures FinalText(rs, lo, hi) == FinalText(rs, lo, mid) + FinalText(rs, mid, hi)
    decreases hi
  {
    if hi > mid {
      FinalTextSplits(rs, lo, mid, hi - 1);
    }
  }

  /** With no non-final result in range the interim preview is empty. */
  lemma {:induction false} InterimEmptyWhenAllFinal(rs: seq<RecognitionResult>, lo: nat, hi: nat)
    requires hi <= |rs| && AllFinal(rs, lo, hi)
    ensures InterimText(rs, lo, hi) == ""
    decreases hi
  {
    if hi > lo { InterimEmptyWhenAllFinal(rs, lo, hi - 1); }
  }

  /** Only indices lo..hi-1 are read: two result lists, of any lengths that
      reach hi, that agree there, whatever they hold elsewhere, give the same
      appended text, preview and cursor. */
  lemma {:induction false} ReadsOnlyFromCursor(rs: seq<RecognitionResult>, rs': seq<RecognitionResult>, lo: nat, hi: nat)
    requires hi <= |rs| && hi <= |rs'|
    requires forall i :: lo <= i < hi ==> rs[i] == rs'[i]
    ensures FinalText(rs, lo, hi) == FinalText(rs', lo, hi)
    ensures InterimText(rs, lo, hi) == InterimText(rs', lo, hi)
    ensures NextCursor(rs, lo, hi, lo) == NextCursor(rs', lo, hi, lo)
    decreases hi
  {
    if hi > lo { ReadsOnlyFromCursor(rs, rs', lo, hi - 1); }
  }

  /** Delivering the same result list a second time appends nothing and
      leaves the cursor where the first delivery put it. */
  lemma ReplayAppendsNothing(rs: seq<RecognitionResult>, cursor: nat)
    ensures var c := NextCursor(rs, cursor, |rs|, cursor);
      FinalText(rs, c, |rs|) == "" && NextCursor(rs, c, |rs|, c) == c
  {
    NextCursorIsPastLastFinal(rs, cursor, |rs|);
    var c := NextCursor(rs, cursor, |rs|, cursor);
    FinalTextNonEmptyIff(rs, c, |rs|);
    NextCursorIsPastLastFinal(rs, c, |rs|);
  }

  /** No duplication across two events of one session. If the second list
      keeps the first one's entries from `cursor` up to its last final one
      (the engine does not revise a final result), then reading the first
      list from `cursor` and the second from the cursor that left appends
      exactly what reading the second list once from `cursor` appends. */
  lemma TwoEventsAppendOnce(r1: seq<RecognitionResult>, r2: seq<RecognitionResult>, cursor: nat)
    requires cursor <= |r1| <= |r2|
    requires forall i :: cursor <= i < NextCursor(r1, cursor, |r1|, cursor) ==> r2[i] == r1[i]
    ensures FinalText(r1, cursor, |r1|) + FinalText(r2, NextCursor(r1, cursor, |r1|, cursor), |r2|)
         == FinalText(r2, cursor, |r2|)
  {
    var c := NextCursor(r1, cursor, |r1|, cursor);
    ReplayAppendsNothing(r1, cursor);
    FinalTextSplits(r1, cursor, c, |r1|);
    assert FinalText(r1, cursor, |r1|) == FinalText(r1, cursor, c);
    ReadsOnlyFromCursor(r1, r2, cursor, c);
    assert FinalText(r1, cursor, c) == FinalText(r2, cursor, c);
    FinalTextSplits(r2, cursor, c, |r2|);
  }

  /** A result that the cursor passes while it is still interim is not read
      again: once it turns final it is never committed. */
  lemma InterimPassedOverIsLost()
    ensures var r1 := [RecognitionResult("a", false), RecognitionResult("b", true)];
      var r2 := [RecognitionResult("a", true), RecognitionResult("b", true)];
      var c := NextCursor(r1, 0, |r1|, 0);
      c == 2 && FinalText(r1, 0, |r1|) + FinalText(r2, c, |r2|) == "b "
      && FinalText(r2, 0, |r2|) == "a b "
  {
  }

  class TranscriptAccumulator {
    /** Committed text: what the host's text field shows after the last commit. */
    var baseText: string
    /** First index of the session's result list that `OnResult` reads. */
    var lastProcessedIndex: nat
    /** Preview of the not-yet-final speech. */
    var interim: string
    var listening: bool

    constructor ()
      ensures baseText == "" && lastProcessedIndex == 0 && interim == "" && !listening
    {
      baseText, lastProcessedIndex, interim, listening := "", 0, "", false;
    }

    /** The `onresult` handler. Returns the text passed to `onTranscriptChange`,
        or None when the callback is not called. */
    method OnResult(results: seq<RecognitionResult>) returns (notified: Option<string>)
      modifies this
      ensures baseText == old(baseText) + FinalText(results, old(lastProcessedIndex), |results|)
      ensures lastProcessedIndex
        == NextCursor(results, old(lastProcessedIndex), |results|, old(lastProcessedIndex))
      ensures interim == InterimText(results, old(lastProcessedIndex), |results|)
      ensures listening == old(listening)
      ensures notified == if HasFinal(results, old(lastProcessedIndex), |results|)
                          then Some(baseText) else None
    {
      var start := lastProcessedIndex;
      var interimText := "";
      var finalText := "";
      var i := start;
      while i < |results|
        invariant start <= i && (i <= |results| || i == start)
        invariant i <= |results| ==> finalText == FinalText(results, start, i)
        invariant i <= |results| ==> interimText == InterimText(results, start, i)
        invariant i <= |results| ==> lastProcessedIndex == NextCursor(results, start, i, start)
        invariant i > |results| ==> finalText == "" && interimText == "" && lastProcessedIndex == start
        invariant baseText == old(baseText) && listening == old(listening)
      {
        var transcript := results[i].transcript;
        if results[i].isFinal {
          finalText := finalText + transcript + " ";
          lastProcessedIndex := i + 1;
        } else {
          interimText := interimText + transcript;
        }
        i := i + 1;
      }
      interim := interimText;
      FinalTextNonEmptyIff(results, start, |results|);
      if finalText != "" {
        baseText := baseText + finalText;
        notified := Some(baseText);
      } else {
        notified := None;
      }
    }

    /** The effect on `[isListening, currentText]`: starting (or the shown
        text changing while listening) reseeds the committed text and
        rewinds the cursor; stopping clears the preview and rewinds the cursor. */
    method Sync(nowListening: bool, currentText: string)
      modifies this
      ensures listening == nowListening && lastProcessedIndex == 0
      ensures nowListening ==> baseText == currentText && interim == old(interim)
      ensures !nowListening ==> baseText == old(baseText) && interim == ""
    {
      listening := nowListening;
      if listening {
        baseText := currentText;
        lastProcessedIndex := 0;
      } else {
        interim := "";
        lastProcessedIndex := 0;
      }
    }
  }

  /** Dictation runs traced through the accumulator's contracts. */

  /** A final result is appended to the seeded text, followed by one space. */
  method ScenarioCommit() {
    var acc := new TranscriptAccumulator();
    acc.Sync(true, "Hola");
    var n := acc.OnResult([RecognitionResult("mundo", true)]);
    assert acc.baseText == "Holamundo " && n == Some("Holamundo ");
  }

  /** An interim result is only previewed; once the same index is final it is
      committed, and the same list delivered again adds nothing. */
  method ScenarioInterimThenFinal() {
    var acc := new TranscriptAccumulator();
    acc.Sync(true, "");
    var n := acc.OnResult([RecognitionResult("hola", false)]);
    assert acc.interim == "hola" && acc.baseText == "" && n == None;
    n := acc.OnResult([RecognitionResult("hola", true)]);
    assert acc.baseText == "hola " && acc.interim == "" && acc.lastProcessedIndex == 1;
    n := acc.OnResult([RecognitionResult("hola", true)]);
    assert acc.baseText == "hola " && n == None;
  }

  /** When the host shows the committed text, the effect runs again while
      listening and rewinds the cursor, so the next event of the same session
      reads index 0 again and commits it a second time. */
  method ScenarioRewindRereads() {
    var acc := new TranscriptAccumulator();
    acc.Sync(true, "");
    var n := acc.OnResult([RecognitionResult("hola", true)]);
    assert acc.baseText == "hola ";
    acc.Sync(true, acc.baseText);
    var rs := [RecognitionResult("hola", true), RecognitionResult("ya", false)];
    assert FinalText(rs, 0, 1) == "hola " && InterimText(rs, 0, 1) == "";
    assert FinalText(rs, 0, 2) == "hola " && InterimText(rs, 0, 2) == "ya";
    n := acc.OnResult(rs);
    assert acc.baseText == "hola hola " && acc.interim == "ya";
  }

  /** Stopping clears the preview, rewinds the cursor and keeps the committed text. */
  method ScenarioStop() {
    var acc := new TranscriptAccumulator();
    acc.Sync(true, "");
    var rs := [RecognitionResult("hola", true), RecognitionResult("ya", false)];
    assert FinalText(rs, 0, 1) == "hola ";
    assert FinalText(rs, 0, 2) == "hola ";
    var n := acc.OnResult(rs);
    acc.Sync(false, acc.baseText);
    assert acc.interim == "" && acc.lastProcessedIndex == 0 && acc.baseText == "hola ";
  }
}
