/**
 * Live-transcript aggregation: the recognizer's `onresult` handler of
 * src/pages/AssessmentPage.tsx. An event carries the recognizer's result list and the index of
 * the first result that changed; the handler concatenates the final results from that index on
 * and, when that text is non-empty, appends it and one space to the transcript.
 */
module Transcript {

  /** One recognition result: the text of its first alternative and whether it is final. */
  datatype SpeechResult = SpeechResult(transcript: string, isFinal: bool)

  /** One `onresult` event: the results so far and the index of the first changed one. */
  datatype ResultEvent = ResultEvent(results: seq<SpeechResult>, resultIndex: nat)

  /** What one result adds to the event's final text: its text if final, nothing if interim. */
  function Contribution(r: SpeechResult): string {
    if r.isFinal then r.transcript else ""
  }

  /** The concatenated texts of the final results of `rs`, in order. */
  function Finals(rs: seq<SpeechResult>): (text: string)
    ensures text == "" <==> forall k :: 0 <= k < |rs| && rs[k].isFinal ==> rs[k].transcript == ""
  {
    if rs == [] then ""
    else
      var init := rs[..|rs| - 1];
      assert forall k :: 0 <= k < |init| ==> init[k] == rs[k];
      Finals(init) + Contribution(rs[|rs| - 1])
  }

  /** The final text of an event: the final results from `resultIndex` to the end (none past it). */
  function EventText(results: seq<SpeechResult>, resultIndex: nat): (t: string)
    ensures resultIndex <= |results| ==> t == Concat(FinalTexts(results[resultIndex..]))
    ensures resultIndex > |results| ==> t == ""
  {
    if resultIndex <= |results| then FinalsAreFinalTexts(results[resultIndex..]); Finals(results[resultIndex..]) else ""
  }

  /** The transcript after an event whose final text is `text`. */
  function Commit(prev: string, text: string): (r: string)
    ensures |r| == |prev| + (if text == "" then 0 else |text| + 1)
  {
    if text != "" then prev + text + " " else prev
  }

  /**
   * The loop of the handler: it walks the results from `resultIndex` and concatenates the
   * texts of the final ones.
   */
  method CollectFinal(results: seq<SpeechResult>, resultIndex: nat) returns (finalTranscript: string)
    ensures finalTranscript == EventText(results, resultIndex)
  {
    finalTranscript := "";
    var i := resultIndex;
    while i < |results|
      invariant resultIndex <= i
      invariant resultIndex <= |results| ==> i <= |results| && finalTranscript == Finals(results[resultIndex..i])
      invariant resultIndex > |results| ==> finalTranscript == ""
    {
      FinalsStep(results, resultIndex, i);
      if results[i].isFinal {
        finalTranscript := finalTranscript + results[i].transcript;
      }
      i := i + 1;
    }
    if resultIndex <= |results| {
      assert results[resultIndex..i] == results[resultIndex..];
    }
  }

  /** One more loop step: the final text up to `i + 1` extends the one up to `i` by result `i`. */
  lemma FinalsStep(results: seq<SpeechResult>, lo: nat, i: nat)
    requires lo <= i < |results|
    ensures Finals(results[lo..i + 1]) ==
      if results[i].isFinal then Finals(results[lo..i]) + results[i].transcript else Finals(results[lo..i])
  {
    var rs := results[lo..i + 1];
    assert rs[..|rs| - 1] == results[lo..i];
    assert rs[|rs| - 1] == results[i];
    assert Finals(results[lo..i]) + "" == Finals(results[lo..i]);
  }

  // ---------------------------------------------------------------------------
  // What the final text of an event is
  // ---------------------------------------------------------------------------

  /** The texts of the final results, in order: an independent description of `Finals`. */
  function FinalTexts(rs: seq<SpeechResult>): (ts: seq<string>)
    ensures |ts| <= |rs|
  {
    if rs == [] then []
    else if rs[0].isFinal then [rs[0].transcript] + FinalTexts(rs[1..])
    else FinalTexts(rs[1..])
  }

  function Concat(ts: seq<string>): string {
    if ts == [] then "" else ts[0] + Concat(ts[1..])
  }

  lemma {:induction false} ConcatAppend(a: seq<string>, b: seq<string>)
    ensures Concat(a + b) == Concat(a) + Concat(b)
  {
    if a == [] {
      assert a + b == b;
    } else {
      assert (a + b)[1..] == a[1..] + b;
      ConcatAppend(a[1..], b);
    }
  }

  lemma {:induction false} FinalTextsAppend(a: seq<SpeechResult>, b: seq<SpeechResult>)
    ensures FinalTexts(a + b) == FinalTexts(a) + FinalTexts(b)
  {
    if a == [] {
      assert a + b == b;
    } else {
      assert (a + b)[1..] == a[1..] + b;
      FinalTextsAppend(a[1..], b);
    }
  }

  /**
   * The final text is exactly the concatenation, in order, of the texts of the final results;
   * interim results contribute nothing.
   */
  lemma {:induction false} FinalsAreFinalTexts(rs: seq<SpeechResult>)
    ensures Finals(rs) == Concat(FinalTexts(rs))
  {
    if rs != [] {
      var init, last := rs[..|rs| - 1], rs[|rs| - 1];
      assert rs == init + [last];
      FinalsAreFinalTexts(init);
      FinalTextsAppend(init, [last]);
      ConcatAppend(FinalTexts(init), FinalTexts([last]));
      assert FinalTexts([last]) == if last.isFinal then [last.transcript] else [];
    }
  }

  /** The final text of a concatenation of result lists is the concatenation of their final texts. */
  lemma {:induction false} FinalsAppend(a: seq<SpeechResult>, b: seq<SpeechResult>)
    ensures Finals(a + b) == Finals(a) + Finals(b)
  {
    FinalsAreFinalTexts(a);
    FinalsAreFinalTexts(b);
    FinalsAreFinalTexts(a + b);
    FinalTextsAppend(a, b);
    ConcatAppend(FinalTexts(a), FinalTexts(b));
  }

  /** An event whose results from `resultIndex` on are all interim has no final text. */
  lemma {:induction false} InterimOnlyGivesNoText(results: seq<SpeechResult>, resultIndex: nat)
    requires forall i :: resultIndex <= i < |results| ==> !results[i].isFinal
    ensures EventText(results, resultIndex) == ""
  {
    if resultIndex <= |results| {
      var rs := results[resultIndex..];
      assert forall i :: 0 <= i < |rs| ==> !rs[i].isFinal;
      InterimOnlyHelper(rs);
    }
  }

  lemma {:induction false} InterimOnlyHelper(rs: seq<SpeechResult>)
    requires forall i :: 0 <= i < |rs| ==> !rs[i].isFinal
    ensures Finals(rs) == ""
  {
    if rs != [] {
      InterimOnlyHelper(rs[..|rs| - 1]);
    }
  }

  /** Results before `resultIndex` never reach the transcript: changing them changes nothing. */
  lemma EarlierResultsIgnored(a: seq<SpeechResult>, b: seq<SpeechResult>, resultIndex: nat)
    requires |a| == |b| && resultIndex <= |a|
    requires a[resultIndex..] == b[resultIndex..]
    ensures EventText(a, resultIndex) == EventText(b, resultIndex)
  {
  }

  /** Final results within one event are joined with no separator; the space comes once, per event. */
  lemma FinalsJoinWithoutSpace()
    ensures var rs := [SpeechResult("hello", true), SpeechResult("world", true)];
      EventText(rs, 0) == "helloworld" && Commit("", EventText(rs, 0)) == "helloworld "
  {
    var rs := [SpeechResult("hello", true), SpeechResult("world", true)];
    assert rs[0..] == rs;
    assert rs[..1] == [rs[0]];
    assert [rs[0]][..0] == [];
  }

  // ---------------------------------------------------------------------------
  // What an event does to the transcript
  // ---------------------------------------------------------------------------

  /**
   * One event appends the final text and exactly one space, or leaves the transcript unchanged
   * when the final text is empty; the old transcript is always a prefix of the new one.
   */
  lemma CommitAppends(prev: string, text: string)
    ensures prev <= Commit(prev, text)
    ensures Commit(prev, text) == prev <==> text == ""
    ensures text != "" ==> Commit(prev, text)[|prev|..] == text + " "
  {
  }

  /** The transcript after a stream of events, each handled in arrival order. */
  function Replay(prev: string, events: seq<ResultEvent>): (r: string)
    ensures prev <= r
  {
    if events == [] then prev
    else
      var last := events[|events| - 1];
      Commit(Replay(prev, events[..|events| - 1]), EventText(last.results, last.resultIndex))
  }

  /** The non-empty final texts of the events, in arrival order. */
  function CommittedTexts(events: seq<ResultEvent>): (ts: seq<string>)
    ensures forall k :: 0 <= k < |ts| ==> ts[k] != ""
  {
    if events == [] then []
    else
      var last := events[|events| - 1];
      var text := EventText(last.results, last.resultIndex);
      CommittedTexts(events[..|events| - 1]) + (if text != "" then [text] else [])
  }

  /** Texts joined as the transcript holds them: each one followed by a single space. */
  function SpaceJoined(ts: seq<string>): string {
    if ts == [] then "" else SpaceJoined(ts[..|ts| - 1]) + ts[|ts| - 1] + " "
  }

  /**
   * After any stream of events the transcript is the old transcript followed by the non-empty
   * final texts F1 .. Fn in arrival order, each followed by one space: F1 + " " + ... + Fn + " ".
   * Nothing is duplicated, dropped or reordered.
   */
  lemma {:induction false} ReplayJoinsFinalTexts(prev: string, events: seq<ResultEvent>)
    ensures Replay(prev, events) == prev + SpaceJoined(CommittedTexts(events))
  {
    if events != [] {
      var init := events[..|events| - 1];
      var last := events[|events| - 1];
      var text := EventText(last.results, last.resultIndex);
      ReplayJoinsFinalTexts(prev, init);
      CommitJoins(prev, CommittedTexts(init), text);
    }
  }

  /** Committing one more text to a joined transcript joins one more text. */
  lemma CommitJoins(prev: string, ts: seq<string>, t: string)
    ensures Commit(prev + SpaceJoined(ts), t) == prev + SpaceJoined(ts + (if t != "" then [t] else []))
  {
    if t != "" {
      var ts' := ts + [t];
      assert ts'[..|ts'| - 1] == ts;
      assert SpaceJoined(ts') == SpaceJoined(ts) + t + " ";
      assert prev + SpaceJoined(ts) + t + " " == prev + (SpaceJoined(ts) + t + " ");
    } else {
      assert ts + [] == ts;
    }
  }

  /** While events arrive the transcript only grows: every earlier value is a prefix of the later one. */
  lemma {:induction false} ReplayAppendOnly(prev: string, events: seq<ResultEvent>, k: nat)
    requires k <= |events|
    ensures Replay(prev, events[..k]) <= Replay(prev, events)
    decreases |events|
  {
    if k < |events| {
      var init := events[..|events| - 1];
      assert init[..k] == events[..k];
      ReplayAppendOnly(prev, init, k);
      CommitAppends(Replay(prev, init), EventText(events[|events| - 1].results, events[|events| - 1].resultIndex));
    } else {
      assert events[..k] == events;
    }
  }
}
