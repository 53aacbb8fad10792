/**
 * The recording session of src/pages/AssessmentPage.tsx: the `isRecording` flag, the elapsed
 * seconds, the transcript, the recorded audio chunks and the handles the session holds (the
 * microphone stream, the media recorder, the speech recognizer and the one-second interval).
 *
 * The host (microphone, recorder, recognizer, timer) is abstract: its objects are `Handle`s,
 * and what it answers to a start request is a `StartOutcome`. The pure step functions on
 * `Session` are the specification; the class `RecordingSession` holds the same state in fields
 * and its methods update them step by step.
 */
module Recording {
  import opened Wrappers
  import opened Transcript

  /** A host object: a media stream, a media recorder, a speech recognizer or an interval timer. */
  datatype Handle = Handle(id: nat)

  /** A chunk of recorded audio delivered by the media recorder. */
  datatype Blob = Blob(id: nat, size: nat)

  /** What the host answers when the session asks for the microphone. */
  datatype StartOutcome =
    /** The microphone request was rejected (permission denied or no device). */
    | MicrophoneDenied
    /** The request succeeded; `recognizer` is None when the browser has no speech recognition. */
    | MicrophoneGranted(stream: Handle, recorder: Handle, recognizer: Option<Handle>, timer: Handle)
    /**
     * The microphone was granted, but setting up the recorder or the recognizer threw and the
     * error was only logged. `heldRecorder` is None when `new MediaRecorder` threw; otherwise the
     * recorder had been stored, and the chunks emptied, before `start()` or the recognizer threw.
     */
    | StartFailed(heldStream: Handle, heldRecorder: Option<Handle>)

  /** The state of the session. */
  datatype Session = Session(
    isRecording: bool,
    recordingTime: nat,
    transcript: string,
    audioStream: Option<Handle>,
    mediaRecorder: Option<Handle>,
    recognition: Option<Handle>,
    timer: Option<Handle>,
    audioChunks: seq<Blob>)

  /** The state when the page is first shown. */
  const Initial: Session := Session(false, 0, "", None, None, None, None, [])

  /**
   * The session invariant every reachable state keeps: the timer is held exactly while
   * recording, a recording holds the stream and the recorder, and the recognizer is held only
   * while recording. An idle session may still hold a stream and a recorder left by a start that
   * failed part-way.
   */
  predicate Consistent(s: Session) {
    && (s.isRecording <==> s.timer.Some?)
    && (s.isRecording ==> s.audioStream.Some? && s.mediaRecorder.Some?)
    && (!s.isRecording ==> s.recognition.None?)
  }

  /** A session that holds the stream and the recorder exactly while recording. */
  predicate Tidy(s: Session) {
    && Consistent(s)
    && (!s.isRecording ==> s.audioStream.None? && s.mediaRecorder.None?)
  }

  // ---------------------------------------------------------------------------
  // The steps
  // ---------------------------------------------------------------------------

  /**
   * `startRecording`: a denied microphone leaves everything as it was (the error is only
   * logged); a granted one stores the stream, the recorder and (if any) the recognizer, empties
   * the audio chunks, sets the flag, resets the clock to 0 and stores the new interval. A start
   * that fails after the stream arrived keeps the stream (and the recorder, if it was stored)
   * but sets neither the flag nor the interval.
   */
  function Started(s: Session, outcome: StartOutcome): (r: Session)
    ensures outcome.MicrophoneDenied? ==> r == s
    ensures outcome.MicrophoneGranted? ==>
      && r.isRecording && r.recordingTime == 0 && r.timer == Some(outcome.timer)
      && r.audioStream == Some(outcome.stream) && r.mediaRecorder == Some(outcome.recorder)
      && r.audioChunks == []
      && r.recognition == (if outcome.recognizer.Some? then outcome.recognizer else s.recognition)
    ensures outcome.StartFailed? ==>
      && r.audioStream == Some(outcome.heldStream)
      && r.mediaRecorder == (if outcome.heldRecorder.Some? then outcome.heldRecorder else s.mediaRecorder)
      && r.audioChunks == (if outcome.heldRecorder.Some? then [] else s.audioChunks)
      && r.(audioStream := s.audioStream, mediaRecorder := s.mediaRecorder, audioChunks := s.audioChunks) == s
    ensures r.transcript == s.transcript
  {
    match outcome
    case MicrophoneDenied => s
    case StartFailed(stream, recorder) =>
      if recorder.Some? then s.(audioStream := Some(stream), mediaRecorder := recorder, audioChunks := [])
      else s.(audioStream := Some(stream))
    case MicrophoneGranted(stream, recorder, recognizer, timer) =>
      s.(audioStream := Some(stream), mediaRecorder := Some(recorder), audioChunks := [],
         recognition := if recognizer.Some? then recognizer else s.recognition,
         isRecording := true, recordingTime := 0, timer := Some(timer))
  }

  /** One firing of the one-second interval: the clock advances by exactly one, nothing else changes. */
  function Ticked(s: Session): (r: Session)
    ensures r.recordingTime == s.recordingTime + 1
    ensures r.(recordingTime := s.recordingTime) == s
  {
    s.(recordingTime := s.recordingTime + 1)
  }

  /**
   * `stopRecording`: every handle that is present is released and cleared, the flag is reset;
   * the transcript, the clock and the recorded chunks are kept.
   */
  function Stopped(s: Session): (r: Session)
    ensures !r.isRecording
    ensures r.audioStream.None? && r.mediaRecorder.None? && r.recognition.None? && r.timer.None?
    ensures r.transcript == s.transcript && r.recordingTime == s.recordingTime
    ensures r.audioChunks == s.audioChunks
  {
    s.(mediaRecorder := None, recognition := None, audioStream := None, timer := None,
       isRecording := false)
  }

  /** `handleRecordToggle`: stop while recording; otherwise clear the transcript and start. */
  function Toggled(s: Session, outcome: StartOutcome): (r: Session)
    ensures r.isRecording <==> !s.isRecording && outcome.MicrophoneGranted?
  {
    if s.isRecording then Stopped(s) else Started(s.(transcript := ""), outcome)
  }

  /** The recognizer's `onresult` handler. */
  function AfterResult(s: Session, results: seq<SpeechResult>, resultIndex: nat): (r: Session)
    ensures r.(transcript := s.transcript) == s
    ensures s.transcript <= r.transcript
  {
    CommitAppends(s.transcript, EventText(results, resultIndex));
    s.(transcript := Commit(s.transcript, EventText(results, resultIndex)))
  }

  /** The recorder's `ondataavailable` handler: non-empty chunks are kept in arrival order. */
  function AfterData(s: Session, blob: Blob): (r: Session)
    ensures r.(audioChunks := s.audioChunks) == s
    ensures blob.size == 0 ==> r == s
    ensures blob.size > 0 ==> |r.audioChunks| == |s.audioChunks| + 1 && r.audioChunks[|s.audioChunks|] == blob
    ensures s.audioChunks <= r.audioChunks
  {
    if blob.size > 0 then s.(audioChunks := s.audioChunks + [blob]) else s
  }

  // ---------------------------------------------------------------------------
  // Properties of the steps
  // ---------------------------------------------------------------------------

  /** The initial state satisfies the invariant and every step preserves it. */
  lemma StepsPreserveConsistent(s: Session, outcome: StartOutcome, results: seq<SpeechResult>, resultIndex: nat, blob: Blob)
    requires Consistent(s)
    ensures Consistent(Initial)
    ensures Consistent(Started(s, outcome)) && Consistent(Ticked(s)) && Consistent(Stopped(s))
    ensures Consistent(Toggled(s, outcome)) && Consistent(AfterResult(s, results, resultIndex))
    ensures Consistent(AfterData(s, blob))
  {
  }

  /** The initial state holds nothing, and every step except a start that fails part-way keeps that. */
  lemma StepsPreserveTidy(s: Session, outcome: StartOutcome, results: seq<SpeechResult>, resultIndex: nat, blob: Blob)
    requires Tidy(s) && !outcome.StartFailed?
    ensures Tidy(Initial)
    ensures Tidy(Started(s, outcome)) && Tidy(Ticked(s)) && Tidy(Stopped(s))
    ensures Tidy(Toggled(s, outcome)) && Tidy(AfterResult(s, results, resultIndex))
    ensures Tidy(AfterData(s, blob))
  {
  }

  /**
   * A start that fails after the stream arrived leaves an idle session holding the stream. The
   * next press does not stop it: it starts again, and a granted start replaces the held stream
   * with the new one, so the old one is never released.
   */
  lemma FailedStartLeaksStream(s: Session, stream: Handle, recorder: Option<Handle>, next: StartOutcome)
    requires Tidy(s) && !s.isRecording
    ensures var r := Started(s, StartFailed(stream, recorder));
      && !r.isRecording && r.timer.None? && r.audioStream == Some(stream) && !Tidy(r)
      && Toggled(r, next) == Started(r.(transcript := ""), next)
      && (next.MicrophoneGranted? ==> Toggled(r, next).audioStream == Some(next.stream))
  {
  }

  /** A denied start changes nothing: it records nothing and sets no timer. */
  lemma DeniedStartChangesNothing(s: Session)
    requires Consistent(s) && !s.isRecording
    ensures Started(s, MicrophoneDenied) == s
    ensures !Started(s, MicrophoneDenied).isRecording && Started(s, MicrophoneDenied).timer.None?
  {
  }

  /** Stopping twice leaves the same state as stopping once. */
  lemma StopIdempotent(s: Session)
    ensures Stopped(Stopped(s)) == Stopped(s)
  {
  }

  /** Stopping an idle session that holds nothing changes nothing. */
  lemma StopWhenIdleIsNoOp(s: Session)
    requires Tidy(s) && !s.isRecording
    ensures Stopped(s) == s
  {
  }

  /**
   * Toggling while recording only stops and keeps the transcript; toggling while idle clears
   * the transcript and starts, and records exactly when the microphone was granted.
   */
  lemma ToggleBehaviour(s: Session, outcome: StartOutcome)
    ensures s.isRecording ==> Toggled(s, outcome) == Stopped(s) && Toggled(s, outcome).transcript == s.transcript
    ensures !s.isRecording ==> Toggled(s, outcome).transcript == ""
    ensures !s.isRecording ==> (Toggled(s, outcome).isRecording <==> outcome.MicrophoneGranted?)
    ensures !s.isRecording && outcome.MicrophoneGranted? ==> Toggled(s, outcome).recordingTime == 0
  {
  }

  // ---------------------------------------------------------------------------
  // Runs of the session
  // ---------------------------------------------------------------------------

  /** Something the user or the host does to the session. */
  datatype Action =
    | PressRecord(outcome: StartOutcome)
    | IntervalFires
    | RecognizerResult(event: ResultEvent)
    | RecorderData(blob: Blob)

  /** One action; the host fires the interval only while one is set. */
  function Step(s: Session, a: Action): (r: Session)
    ensures !a.PressRecord? ==> r.isRecording == s.isRecording && r.timer == s.timer
    ensures a.IntervalFires? ==> r.recordingTime == s.recordingTime + (if s.timer.Some? then 1 else 0)
  {
    match a
    case PressRecord(outcome) => Toggled(s, outcome)
    case IntervalFires => if s.timer.Some? then Ticked(s) else s
    case RecognizerResult(e) => AfterResult(s, e.results, e.resultIndex)
    case RecorderData(blob) => AfterData(s, blob)
  }

  /** The state after a run of actions, in order. */
  function Run(s: Session, actions: seq<Action>): Session
    decreases |actions|
  {
    if actions == [] then s else Run(Step(s, actions[0]), actions[1..])
  }

  /** Every reachable state satisfies the invariant. */
  lemma {:induction false} RunPreservesConsistent(s: Session, actions: seq<Action>)
    requires Consistent(s)
    ensures Consistent(Run(s, actions))
    decreases |actions|
  {
    if actions != [] {
      var a := actions[0];
      if a.RecognizerResult? {
        StepsPreserveConsistent(s, MicrophoneDenied, a.event.results, a.event.resultIndex, Blob(0, 0));
      } else if a.RecorderData? {
        StepsPreserveConsistent(s, MicrophoneDenied, [], 0, a.blob);
      } else if a.PressRecord? {
        StepsPreserveConsistent(s, a.outcome, [], 0, Blob(0, 0));
      }
      RunPreservesConsistent(Step(s, a), actions[1..]);
    }
  }

  /** No press in the run meets a start that fails part-way. */
  predicate NoFailedStart(actions: seq<Action>) {
    forall k :: 0 <= k < |actions| ==> !(actions[k].PressRecord? && actions[k].outcome.StartFailed?)
  }

  /** As long as no start fails part-way, every reachable state holds nothing while idle. */
  lemma {:induction false} RunPreservesTidy(s: Session, actions: seq<Action>)
    requires Tidy(s) && NoFailedStart(actions)
    ensures Tidy(Run(s, actions))
    decreases |actions|
  {
    if actions != [] {
      var a := actions[0];
      assert !(a.PressRecord? && a.outcome.StartFailed?);
      if a.RecognizerResult? {
        StepsPreserveTidy(s, MicrophoneDenied, a.event.results, a.event.resultIndex, Blob(0, 0));
      } else if a.RecorderData? {
        StepsPreserveTidy(s, MicrophoneDenied, [], 0, a.blob);
      } else if a.PressRecord? {
        StepsPreserveTidy(s, a.outcome, [], 0, Blob(0, 0));
      }
      assert NoFailedStart(actions[1..]) by {
        forall k | 0 <= k < |actions[1..]| ensures !(actions[1..][k].PressRecord? && actions[1..][k].outcome.StartFailed?) {
          assert actions[1..][k] == actions[k + 1];
        }
      }
      RunPreservesTidy(Step(s, a), actions[1..]);
    }
  }

  /** The number of interval firings in a run. */
  function Ticks(actions: seq<Action>): nat {
    if actions == [] then 0 else (if actions[0].IntervalFires? then 1 else 0) + Ticks(actions[1..])
  }

  predicate NoPress(actions: seq<Action>) {
    forall k :: 0 <= k < |actions| ==> !actions[k].PressRecord?
  }

  /**
   * Between two presses of the record button, a recording stays on, its clock counts exactly the
   * interval firings, and its transcript only grows (the old transcript is a prefix of the new).
   */
  lemma {:induction false} RecordingRun(s: Session, actions: seq<Action>)
    requires Consistent(s) && s.isRecording && NoPress(actions)
    ensures Run(s, actions).isRecording
    ensures Run(s, actions).recordingTime == s.recordingTime + Ticks(actions)
    ensures s.transcript <= Run(s, actions).transcript
    decreases |actions|
  {
    if actions != [] {
      var s' := Step(s, actions[0]);
      if actions[0].RecognizerResult? {
        CommitAppends(s.transcript, EventText(actions[0].event.results, actions[0].event.resultIndex));
      }
      assert NoPress(actions[1..]) by {
        forall k | 0 <= k < |actions[1..]| ensures !actions[1..][k].PressRecord? {
          assert actions[1..][k] == actions[k + 1];
        }
      }
      RecordingRun(s', actions[1..]);
    }
  }

  /** After a stop, the clock no longer moves, whatever the host still delivers, until the next press. */
  lemma {:induction false} StoppedClockFrozen(s: Session, actions: seq<Action>)
    requires Consistent(s) && !s.isRecording && NoPress(actions)
    ensures Run(s, actions).recordingTime == s.recordingTime
    ensures !Run(s, actions).isRecording
    decreases |actions|
  {
    if actions != [] {
      assert NoPress(actions[1..]) by {
        forall k | 0 <= k < |actions[1..]| ensures !actions[1..][k].PressRecord? {
          assert actions[1..][k] == actions[k + 1];
        }
      }
      StoppedClockFrozen(Step(s, actions[0]), actions[1..]);
    }
  }

  // ---------------------------------------------------------------------------
  // The session object
  // ---------------------------------------------------------------------------

  class RecordingSession {
    var isRecording: bool
    var recordingTime: nat
    var transcript: string
    var audioStream: Option<Handle>
    var mediaRecorder: Option<Handle>
    var recognition: Option<Handle>
    var timer: Option<Handle>
    var audioChunks: seq<Blob>

    /** The fields as a value. */
    function State(): Session
      reads this
    {
      Session(isRecording, recordingTime, transcript, audioStream, mediaRecorder, recognition,
        timer, audioChunks)
    }

    predicate Valid()
      reads this
    {
      Consistent(State())
    }

    constructor ()
      ensures Valid() && State() == Initial
    {
      isRecording, recordingTime, transcript := false, 0, "";
      audioStream, mediaRecorder, recognition, timer := None, None, None, None;
      audioChunks := [];
    }

    method Start(outcome: StartOutcome)
      requires Valid()
      modifies this
      ensures Valid() && State() == Started(old(State()), outcome)
    {
      match outcome {
        case MicrophoneDenied =>
        case StartFailed(stream, recorder) =>
          audioStream := Some(stream);
          if recorder.Some? {
            mediaRecorder := recorder;
            audioChunks := [];
          }
        case MicrophoneGranted(stream, recorder, recognizer, t) =>
          audioStream := Some(stream);
          mediaRecorder := Some(recorder);
          audioChunks := [];
          if recognizer.Some? {
            recognition := recognizer;
          }
          isRecording := true;
          recordingTime := 0;
          timer := Some(t);
      }
    }

    /** The interval callback; the host calls it only while the interval is set. */
    method Tick()
      requires Valid() && timer.Some?
      modifies this
      ensures Valid() && State() == Ticked(old(State()))
    {
      recordingTime := recordingTime + 1;
    }

    method Stop()
      requires Valid()
      modifies this
      ensures Valid() && State() == Stopped(old(State()))
    {
      if mediaRecorder.Some? {
        mediaRecorder := None;
      }
      if recognition.Some? {
        recognition := None;
      }
      if audioStream.Some? {
        audioStream := None;
      }
      if timer.Some? {
        timer := None;
      }
      isRecording := false;
    }

    method Toggle(outcome: StartOutcome)
      requires Valid()
      modifies this
      ensures Valid() && State() == Toggled(old(State()), outcome)
    {
      if isRecording {
        Stop();
      } else {
        transcript := "";
        Start(outcome);
      }
    }

    method OnResult(results: seq<SpeechResult>, resultIndex: nat)
      requires Valid()
      modifies this
      ensures Valid() && State() == AfterResult(old(State()), results, resultIndex)
    {
      var finalTranscript := CollectFinal(results, resultIndex);
      if finalTranscript != "" {
        transcript := transcript + finalTranscript + " ";
      }
    }

    method OnDataAvailable(blob: Blob)
      requires Valid()
      modifies this
      ensures Valid() && State() == AfterData(old(State()), blob)
    {
      if blob.size > 0 {
        audioChunks := audioChunks + [blob];
      }
    }
  }
}
