# Interview-practice engine: a verified Dafny model

This project models the deterministic logic of an interview-practice web application:

- the recording session of the assessment page: its flag, its clock, its transcript and the host handles it holds (stream, recorder, recognizer, interval);
- the live transcript built from the speech recognizer's result events;
- the analysis of a finished answer: mock dimension scores, their total and the readiness tier;
- the mm:ss clock display;
- the resume skill-gap matcher and its file gate;
- the practice page's list of completed challenges;
- the constant tables these rely on: target roles, question bank, readiness thresholds, role skill lists, challenges.

Each `Math.random()` draw is a parameter:

- `Offsets` holds the four dimension offsets, each in 0..9.
- `keep` holds one boolean per requirement, standing for `Math.random() > 0.4`.
- `r` is a real in [0, 1) for the question choice.

Browser objects become abstract values:

- The microphone stream, media recorder, recognizer and interval timer are `Handle`s.
- How a start request ends is a `StartOutcome`. It is one of three cases:
  - The microphone is denied.
  - The microphone is granted with the new handles. The recognizer handle is absent when the browser has no speech recognition.
  - The start fails part-way: the stream arrived, but `new MediaRecorder`, `mediaRecorder.start()` or the recognizer threw. The catch block only logs.
- Audio chunks are `Blob`s.
- `localStorage` reads are `Option<string>` parameters.

Modules follow the source files:

- `Constants` models `src/lib/constants.ts`.
- `AssessmentTypes` models `src/types/assessment.ts`.
- `Transcript`, `Recording` and `Assessment` model `src/pages/AssessmentPage.tsx`.
- `Resume` models `src/pages/ResumePage.tsx`.
- `Practice` models `src/pages/PracticePage.tsx`.
- `Wrappers` holds `Option`.

The recording session is a class, `Recording.RecordingSession`. Its fields are the page's state variables and refs. Each of its methods is specified by a pure step function on the `Session` value (`Started`, `Ticked`, `Stopped`, `Toggled`, `AfterResult`, `AfterData`), and the lemmas state their properties. The recognizer handler's loop (`Transcript.CollectFinal`) and the score analysis (`Assessment.Analyze`) are methods with loops. Everything else is functions and lemmas.

The model follows the code, including behaviour a reader might not expect:

- The session has only a recording flag. There is no separate Stopped state.
- A recognizer result that arrives after stop is still appended to the transcript. The handler does not check the flag.
- Each mock dimension lies in [base, base + 9], with base 15, 12, 14 or 13. The total therefore lies in [54, 90], not in [0, 100].
- Which skills are "found" is a random draw. The resume text is never read.
- Dropping a file of another type is silently ignored, not reported.
- The file input's `accept=".pdf,.txt"` (src/pages/ResumePage.tsx:154) makes the browser's dialog filter by extension by default. `handleFileSelect` itself checks nothing, so a file of another type that the user picks by overriding that filter is taken.
- A start that fails after the microphone stream arrived leaves the session idle but still holding the stream, and perhaps the recorder. The next press starts again without stopping them (`Recording.FailedStartLeaksStream`).
- Pressing record while recording stops the session. It does not restart it.
- There is no interim "live preview" string. Interim results are simply dropped.
- Within one event the final texts are joined with no separator. The single space is added once per event, after the joined text, not after each result. So two final results "hello" and "world" in one event add "helloworld " (`Transcript.FinalsJoinWithoutSpace`).
- The completed-challenge list starts empty and the buttons can only remove ids from it, so it stays empty (`Practice.PressesOnlyShrink`).

## Model

| member | source | states |
|---|---|---|
| `Constants.RoleIdsDistinct` | src/lib/constants.ts:3-46 | no two target roles share an id |
| `Constants.EveryRoleHasQuestions` | src/lib/constants.ts:48-131 | every target role has a non-empty question list |
| `Constants.BankKeysAreRoles` | src/lib/constants.ts:48-131 | the question bank has an entry exactly for the six target roles |
| `Constants.AllQuestions` | src/lib/constants.ts:48-131 | every question of every role belongs to the flattened bank |
| `Constants.QuestionBankWellFormed` | src/lib/constants.ts:49-130 | question ids are unique within the flattened bank; every expected duration is positive |
| `Constants.BankIdsUnique` | src/lib/constants.ts:49-130 | two different places of the bank, by role or by position, hold different question ids |
| `Constants.Threshold` | src/lib/constants.ts:133-138 | each tier's range is non-empty and lies within 0..100 |
| `Constants.ThresholdsContiguous` | src/lib/constants.ts:133-138 | the ranges start at 0, end at 100, and each starts one above the previous one's end |
| `Constants.LevelsComplete` | src/lib/constants.ts:133-138 | the table lists every readiness tier |
| `Constants.FindTier` | src/lib/constants.ts:133-138 | a found tier is listed and its range holds the total; no tier found means no listed range holds it |
| `Constants.TierByTable` | src/lib/constants.ts:133-138 | a tier exists exactly for totals 0..100, and it is the only tier whose range holds the total |
| `Assessment.RoleFromStorage` | src/pages/AssessmentPage.tsx:54 | a stored non-empty role is used; a missing or empty one gives the software-engineer role |
| `Assessment.QuestionsFor` | src/pages/AssessmentPage.tsx:56 | a role's own list, or the default role's list; never empty |
| `Assessment.QuestionIndex` | src/pages/AssessmentPage.tsx:60 | `floor(r * n)`, for r in [0, 1), is a valid index below n |
| `Assessment.PickQuestion` | src/pages/AssessmentPage.tsx:58-62 | the question drawn on mount is one of the role's questions and has a positive duration |
| `Assessment.TrimStartEmpty` | src/pages/AssessmentPage.tsx:163 | trimming leading white space leaves nothing exactly when every character is white space |
| `Assessment.TrimEndEmpty` | src/pages/AssessmentPage.tsx:163 | the same for trailing white space |
| `Assessment.TrimStartHead` | src/pages/AssessmentPage.tsx:163 | after trimming the start, a non-empty rest begins with a non-white-space character |
| `Assessment.IsWhitespace` | src/pages/AssessmentPage.tsx:163 | space, tab, line feed and carriage return are white space; no printable ASCII character is |
| `Assessment.TrimStart` | src/pages/AssessmentPage.tsx:163 | removing leading white space leaves a suffix of the answer |
| `Assessment.TrimEnd` | src/pages/AssessmentPage.tsx:163 | removing trailing white space leaves a prefix of the answer, and a non-empty result does not end in white space |
| `Assessment.Trim` | src/pages/AssessmentPage.tsx:163 | trimming never lengthens the answer, and a non-empty result neither starts nor ends with white space |
| `Assessment.BlankIffAllWhitespace` | src/pages/AssessmentPage.tsx:163 | `transcript.trim()` is empty exactly when every character is JavaScript white space |
| `Assessment.ReadinessFor` | src/pages/AssessmentPage.tsx:211-214 | for totals 0..100 the if-chain gives the tier the threshold table gives; above 100 Expert, below 0 Beginner |
| `Assessment.ReadinessBoundaries` | src/pages/AssessmentPage.tsx:211-214 | 0 and 39 are Beginner, 40 and 64 Practicing, 65 and 84 Ready, 85 and 100 Expert |
| `Assessment.Sum` | src/pages/AssessmentPage.tsx:209 | scores each within 0..25 add up to a total within 0..25 per score |
| `Assessment.SumOfFour` | src/pages/AssessmentPage.tsx:209 | the `reduce` sum of four scores is their plain sum |
| `Assessment.Analyze` | src/pages/AssessmentPage.tsx:162-214 | a blank answer gives no result; otherwise dimensions are base + offset, the total is their sum, and the tier comes from the if-chain and agrees with the table |
| `Assessment.MockScoresInRange` | src/pages/AssessmentPage.tsx:173-176 | each dimension lies in [base, base + 9] and is at most 25; the total lies in [54, 90] |
| `Assessment.MockNeverBeginner` | src/pages/AssessmentPage.tsx:173-176 | the mock scores never classify as Beginner |
| `Assessment.Decimal` | src/pages/AssessmentPage.tsx:230 | a number prints as a non-empty digit string without a leading zero, one digit exactly below 10, at most two below 100 |
| `Assessment.DecimalRoundTrip` | src/pages/AssessmentPage.tsx:230 | reading the printed digits back gives the number |
| `Assessment.PadTwo` | src/pages/AssessmentPage.tsx:230 | the padded seconds are at least two digits, exactly two below 100, and read back as the same number |
| `Assessment.FormatTime` | src/pages/AssessmentPage.tsx:227-231 | the display is digits, a colon, then exactly two digits |
| `Assessment.FormatTimeRoundTrip` | src/pages/AssessmentPage.tsx:227-231 | minutes times 60 plus the two-digit seconds give back the elapsed seconds; the seconds part is below 60 |
| `Transcript.CollectFinal` | src/pages/AssessmentPage.tsx:91-98 | the handler's loop yields the concatenated final texts from `resultIndex` onwards (none past the end) |
| `Transcript.FinalTexts` | src/pages/AssessmentPage.tsx:93-98 | there are no more final texts than results |
| `Transcript.ConcatAppend` | src/pages/AssessmentPage.tsx:96 | concatenating two lists of texts concatenates their joined strings |
| `Transcript.FinalTextsAppend` | src/pages/AssessmentPage.tsx:93-98 | the final texts of two result lists, appended, are the final texts of the appended lists |
| `Transcript.FinalsAreFinalTexts` | src/pages/AssessmentPage.tsx:93-98 | an event's text is exactly the in-order concatenation of its final results' texts; interim results contribute nothing |
| `Transcript.FinalsAppend` | src/pages/AssessmentPage.tsx:93-98 | the final text of appended result lists is the final texts appended |
| `Transcript.InterimOnlyGivesNoText` | src/pages/AssessmentPage.tsx:93-98 | an event with only interim results from `resultIndex` on has no final text |
| `Transcript.InterimOnlyHelper` | src/pages/AssessmentPage.tsx:93-98 | a list of interim results has no final text |
| `Transcript.EarlierResultsIgnored` | src/pages/AssessmentPage.tsx:93 | results before `resultIndex` have no effect on the event's text |
| `Transcript.Finals` | src/pages/AssessmentPage.tsx:93-98 | the accumulated final text is empty exactly when every final result's text is empty, so interim results alone never add a space |
| `Transcript.FinalsJoinWithoutSpace` | src/pages/AssessmentPage.tsx:93-105 | two final results "hello" and "world" in one event commit as "helloworld ": no space between results, one after the event |
| `Transcript.EventText` | src/pages/AssessmentPage.tsx:93-98 | an event's text is the joined final texts from `resultIndex` on, and empty when `resultIndex` is past the end |
| `Transcript.Commit` | src/pages/AssessmentPage.tsx:100-105 | the transcript grows by the text plus one space, or not at all when the text is empty |
| `Transcript.Replay` | src/pages/AssessmentPage.tsx:90-106 | after any stream of events the old transcript is a prefix of the new one |
| `Transcript.CommitAppends` | src/pages/AssessmentPage.tsx:100-105 | an event appends its final text and exactly one space, or leaves the transcript unchanged exactly when that text is empty; the old transcript is a prefix |
| `Transcript.CommittedTexts` | src/pages/AssessmentPage.tsx:100-105 | only non-empty event texts are committed |
| `Transcript.ReplayJoinsFinalTexts` | src/pages/AssessmentPage.tsx:90-106 | after any stream of events the transcript is the old one followed by F1 + " " + ... + Fn + " ", with no duplication or reordering |
| `Transcript.ReplayAppendOnly` | src/pages/AssessmentPage.tsx:100-105 | every earlier transcript value is a prefix of every later one |
| `Recording.Started` | src/pages/AssessmentPage.tsx:64-127 | a denied microphone changes nothing; a granted one sets the flag, resets the clock to 0, stores the timer, stream and recorder, empties the chunks and keeps the transcript; a part-way failure stores the stream (and the recorder with emptied chunks, if it got that far) and changes nothing else |
| `Recording.Ticked` | src/pages/AssessmentPage.tsx:120-122 | a tick adds exactly 1 to the clock and changes nothing else |
| `Recording.Stopped` | src/pages/AssessmentPage.tsx:129-151 | after stop no handle is held and the flag is false; transcript, clock and chunks are untouched |
| `Recording.StepsPreserveConsistent` | src/pages/AssessmentPage.tsx:64-160 | every step keeps the invariant: the timer is held exactly while recording, a recording holds the stream and the recorder, and the recognizer is held only while recording |
| `Recording.StepsPreserveTidy` | src/pages/AssessmentPage.tsx:64-160 | every step except a part-way start failure keeps the stronger invariant that stream and recorder are held exactly while recording |
| `Recording.FailedStartLeaksStream` | src/pages/AssessmentPage.tsx:64-126 | after a part-way failure the session is idle with no timer but holds the stream; the next press starts again instead of stopping, and a granted start replaces the held stream |
| `Recording.DeniedStartChangesNothing` | src/pages/AssessmentPage.tsx:124-126 | a denied start leaves the session exactly as it was: not recording and with no timer |
| `Recording.StopIdempotent` | src/pages/AssessmentPage.tsx:129-151 | stopping twice gives the same state as stopping once |
| `Recording.StopWhenIdleIsNoOp` | src/pages/AssessmentPage.tsx:129-151 | stopping a session that is not recording and holds no handle changes nothing |
| `Recording.ToggleBehaviour` | src/pages/AssessmentPage.tsx:153-160 | while recording, the toggle only stops and keeps the transcript; otherwise it clears the transcript to "" and starts, recording exactly when the microphone is granted, with the clock at 0 |
| `Recording.RunPreservesConsistent` | src/pages/AssessmentPage.tsx:64-160 | every state reachable by any run of presses, ticks, results and chunks keeps the invariant |
| `Recording.RunPreservesTidy` | src/pages/AssessmentPage.tsx:64-160 | in a run where no start fails part-way, an idle session never holds a stream or a recorder |
| `Recording.Toggled` | src/pages/AssessmentPage.tsx:153-160 | after a press the session records exactly when it was idle and the microphone was granted |
| `Recording.AfterResult` | src/pages/AssessmentPage.tsx:90-106 | a result event changes only the transcript, which only grows |
| `Recording.AfterData` | src/pages/AssessmentPage.tsx:74-78 | a data event changes only the chunks; an empty blob changes nothing, a non-empty one is appended at the end |
| `Recording.Step` | src/pages/AssessmentPage.tsx:64-160 | only a press changes the flag and the timer; an interval firing adds one to the clock exactly when a timer is held |
| `Recording.RecordingRun` | src/pages/AssessmentPage.tsx:100-122 | between presses a recording stays on, its clock equals the number of ticks, and its transcript only grows |
| `Recording.StoppedClockFrozen` | src/pages/AssessmentPage.tsx:145-150 | after a stop the clock no longer moves until the next press |
| `Recording.RecordingSession.constructor` | src/pages/AssessmentPage.tsx:41-50 | the session starts idle: not recording, clock 0, empty transcript, no handles |
| `Recording.RecordingSession.Start` | src/pages/AssessmentPage.tsx:64-127 | the fields change as `Started` says, and the invariant is kept |
| `Recording.RecordingSession.Tick` | src/pages/AssessmentPage.tsx:120-122 | the fields change as `Ticked` says |
| `Recording.RecordingSession.Stop` | src/pages/AssessmentPage.tsx:129-151 | the fields change as `Stopped` says |
| `Recording.RecordingSession.Toggle` | src/pages/AssessmentPage.tsx:153-160 | the fields change as `Toggled` says |
| `Recording.RecordingSession.OnResult` | src/pages/AssessmentPage.tsx:90-106 | the transcript gains the event's final text and a space, as `AfterResult` says |
| `Recording.RecordingSession.OnDataAvailable` | src/pages/AssessmentPage.tsx:74-78 | non-empty chunks are appended in arrival order |
| `Resume.RequirementListsWellFormed` | src/pages/ResumePage.tsx:25-41 | every skill list is non-empty and has no duplicate or empty names |
| `Resume.RequirementsFor` | src/pages/ResumePage.tsx:87 | a role's own list, or the software-engineer list for a role without one; always non-empty and duplicate-free |
| `Resume.Selected` | src/pages/ResumePage.tsx:90 | no more found skills than requirements, and each one is a requirement |
| `Resume.Missing` | src/pages/ResumePage.tsx:91 | no more missing skills than requirements, each one a requirement that was not found |
| `Resume.SelectedIsSubsequence` | src/pages/ResumePage.tsx:90 | the found skills are an order-preserving subsequence of the requirements |
| `Resume.MissingIsSubsequence` | src/pages/ResumePage.tsx:91 | the missing skills are an order-preserving subsequence of the requirements |
| `Resume.SelectedMembers` | src/pages/ResumePage.tsx:90 | a skill is found exactly when some requirement with a true draw has that name |
| `Resume.MissingMembers` | src/pages/ResumePage.tsx:91 | a skill is missing exactly when it is a requirement and not found |
| `Resume.SelectedLength` | src/pages/ResumePage.tsx:90 | there are as many found skills as true draws |
| `Resume.MissingLength` | src/pages/ResumePage.tsx:91 | for distinct requirements, the missing skills number the requirements minus the true draws |
| `Resume.MissingLengthFrom` | src/pages/ResumePage.tsx:91 | the same, for any found list that agrees with the draws |
| `Resume.CountTrueBound` | src/pages/ResumePage.tsx:90 | there are no more true draws than draws |
| `Resume.FoundIffDrawn` | src/pages/ResumePage.tsx:90-95 | for distinct requirements, requirement i is found exactly when its draw is true |
| `Resume.FoundMissingPartition` | src/pages/ResumePage.tsx:90-91 | for distinct requirements each one is in exactly one of found and missing, and the two lengths add up to the total |
| `Resume.ImportanceAt` | src/pages/ResumePage.tsx:96 | high exactly for i < 5, medium exactly for 5 <= i < 10, low exactly for i >= 10 |
| `Resume.SkillMatches` | src/pages/ResumePage.tsx:93-97 | one entry per requirement, in order; entry i names requirement i, is found exactly when that skill is found, and has the tier of i |
| `Resume.CountFoundOfDraws` | src/pages/ResumePage.tsx:95 | entries whose flags match the draws are as many as the true draws |
| `Resume.CountFoundIsFoundLength` | src/pages/ResumePage.tsx:95 | for distinct requirements the number of found flags equals the number of found skills |
| `Resume.MatchPercentage` | src/pages/ResumePage.tsx:100 | the nearest integer to 100 * found / total, halves rounded up; at most 100, 0 when nothing is found, 100 when everything is |
| `Resume.PercentAtMost100` | src/pages/ResumePage.tsx:100 | a rounded percentage of a fraction at most 1 is at most 100, with 0 and 100 exact at the ends |
| `Resume.MatchPercentageMonotone` | src/pages/ResumePage.tsx:100 | finding more skills never lowers the percentage |
| `Resume.TemplateAt` | src/pages/ResumePage.tsx:105-106 | a template literal prints `xs[i]` when it exists and "undefined" past the end |
| `Resume.OrFallback` | src/pages/ResumePage.tsx:106 | `xs[i] \|\| fallback` is the element when it exists and is non-empty, else the fallback |
| `Resume.RecommendationsAsWritten` | src/pages/ResumePage.tsx:104-109 | four recommendations; the first names `missingSkills[0]`, or "undefined" when nothing is missing |
| `Resume.AllFoundRecommendsUndefined` | src/pages/ResumePage.tsx:105 | when everything is found, nothing is missing and the first recommendation as written reads "Add more undefined experience to your resume" |
| `Resume.MissingNone` | src/pages/ResumePage.tsx:91 | if every requirement is found, nothing is missing |
| `Resume.Recommendations` | src/pages/ResumePage.tsx:104-109 | always four, in fixed order; the second names `missingSkills[1]` or "relevant technologies"; the first does the same with `missingSkills[0]` |
| `Resume.RecommendationsAgreeWhenSomethingMissing` | src/pages/ResumePage.tsx:104-109 | when some skill is missing, the corrected list equals the list as written |
| `Resume.AnalyzeRequirements` | src/pages/ResumePage.tsx:87-110 | found and missing are order-preserving subsequences, missing is the complement of found, the entries follow the requirements, and the percentage is the rounded found ratio, at most 100 |
| `Resume.Drop` | src/pages/ResumePage.tsx:63-70 | a drop replaces the file only with a PDF or plain-text file; otherwise the file is unchanged |
| `Resume.Select` | src/pages/ResumePage.tsx:72-77 | the picker replaces the file with any selected file |
| `Resume.SelectSkipsTypeGate` | src/pages/ResumePage.tsx:63-77 | a Word file is accepted by the picker handler but refused on drop; it reaches the picker only if the user overrides the dialog's extension filter |
| `Resume.AnalyzeResume` | src/pages/ResumePage.tsx:79-114 | no file gives no analysis; otherwise the found flags equal the draws, the found count equals the number of true flags, and found plus missing cover the requirements |
| `Practice.ChallengeIdsDistinct` | src/pages/PracticePage.tsx:18-67 | the six challenge ids are distinct |
| `Practice.Without` | src/pages/PracticePage.tsx:95 | filtering removes the id and keeps every other id's membership |
| `Practice.ToggleComplete` | src/pages/PracticePage.tsx:93-97 | the id is in the result exactly when it was not in the list; every other id's membership is unchanged; an absent id is appended at the end, a present one is filtered out |
| `Practice.WithoutAbsent` | src/pages/PracticePage.tsx:95 | filtering out an absent id leaves the list unchanged |
| `Practice.WithoutAppend` | src/pages/PracticePage.tsx:95 | filtering distributes over appending |
| `Practice.WithoutNoDuplicates` | src/pages/PracticePage.tsx:95 | filtering keeps a list duplicate-free |
| `Practice.ToggleKeepsOthersInOrder` | src/pages/PracticePage.tsx:95 | with the toggled id taken out, the list is exactly what it was, in the same order |
| `Practice.TogglePreservesNoDuplicates` | src/pages/PracticePage.tsx:95 | a duplicate-free list stays duplicate-free |
| `Practice.ToggleTwiceAbsent` | src/pages/PracticePage.tsx:95 | toggling an absent id twice gives back exactly the original list |
| `Practice.ToggleTwicePresent` | src/pages/PracticePage.tsx:95 | toggling a present id twice removes every copy and puts one at the end |
| `Practice.PressChallenge` | src/pages/PracticePage.tsx:187 | a card's button only removes its id: it toggles a completed challenge, and starting one leaves the list unchanged |
| `Practice.PressesOnlyShrink` | src/pages/PracticePage.tsx:84-97 | presses only ever remove ids, so the list, which starts empty, stays empty |
| `Practice.DistinctCardinality` | src/pages/PracticePage.tsx:129 | a duplicate-free list has as many distinct ids as elements |
| `Practice.SubsetCardinality` | src/pages/PracticePage.tsx:129 | a subset is no larger than its superset |
| `Practice.CompletedAtMostChallenges` | src/pages/PracticePage.tsx:129 | a duplicate-free completed list of challenge ids is no longer than the challenge table, so the shown count never exceeds the total |

## Findings

| source | as written | input that shows it | evidently intended | confidence | as-written member | corrected member |
|---|---|---|---|---|---|---|
| src/pages/ResumePage.tsx:105 | the first recommendation interpolates `missingSkills[0]` with no fallback | every draw true, so every skill is found; the first recommendation reads "Add more undefined experience to your resume" | the same fallback as the second recommendation (line 106): "relevant technologies" when no skill is missing | high; not executed | `Resume.AllFoundRecommendsUndefined` (about `Resume.RecommendationsAsWritten`) | `Resume.Recommendations` (used by `Resume.AnalyzeRequirements`) |

## Left out

- Browser host APIs: `getUserMedia`, `MediaRecorder`, `SpeechRecognition`, `setInterval`/`clearInterval`, track stopping, `localStorage`, navigation and the `setTimeout` delays. They appear only as handles, outcomes and parameters.
- The gap between requesting the microphone and setting `isRecording` is not modelled. `startRecording` awaits `getUserMedia`, so a second press during that wait could start a second recording. The model treats each start as atomic.
- `Recording.Started`: a part-way failure is one outcome. The model does not tell whether the recorder was already started, or whether it goes on delivering data. Track stopping is not modelled.
- `Recording.RecordingSession.Start` can be called while already recording. It then overwrites the old handles without releasing them, and the model does not track the lost handle. In the source only the toggle calls it, and only while not recording.
- Recognizer error events (`onerror`) only log. They change no state, so they are not modelled.
- The words-per-minute, filler-word and pause figures, the confidence indicators and the narrative texts of the result are fixed literals in the source. No analyzer exists to model. `FILLER_WORDS` is unused. The result keeps only the fixed structure verdict.
- Saving results to and loading them from `localStorage` as JSON is not modelled, nor is the results page.
- Floating point is not modelled. The percentage is exact rational rounding. The question draw is a real in [0, 1). The progress-bar width, the SVG ring offsets and the waveform bars are not modelled.
- A JavaScript object lookup with a prototype key (such as `"constructor"`) would find an inherited property. Role lookups here treat such a key as an ordinary missing role.
- `Resume.Recommendations`: the first recommendation uses the corrected fallback, "relevant technologies" (see Findings). It is not the source's unguarded `missingSkills[0]`. The code as written is `Resume.RecommendationsAsWritten`.
- `Resume.AnalyzeRequirements`: its recommendations are `Resume.Recommendations`, so they carry the same correction.
- `Resume.AnalyzeResume`: it returns `Resume.AnalyzeRequirements`, so it carries the same correction.
- Matching the resume text against the skills is not modelled, because the code never reads the file: skills are drawn at random. STAR-structure and speaking-pace analysis are not modelled either, because the code returns fixed values for them.
- Presentation: the page layouts, the role and mode cards, the charts, the progress page's static data, routing and animations.
