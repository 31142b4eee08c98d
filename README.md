# Swift speech recognizer: status equality and the scripted preview recogniser

This project models the sequential core of `swift-speech-recognizer`, a
dependency-injectable wrapper over a platform speech recogniser:

- `SpeechRecognitionStatus` (`status.dfy`): the four-case session status
  (`notStarted`, `recording`, `stopping`, `stopped(Result)`), its identifier
  1..4 and its equality, which compares identifiers only, so every two
  `stopped` values are equal whatever their outcome.
- The scripted **preview** recogniser (`preview.dfy`), which simulates a
  recognition session without a microphone. It is a class holding the two
  callback lists that `startRecording` / `stopRecording` run in order, the
  state of the recording task (next word, utterance so far, cancellation
  flag) and a trace of every value yielded on the authorization, utterance
  and status streams. Each method is proved against a pure transition
  function over those traces (`Apply`, `ApplyAll`, `Advance`). The lemmas
  about those functions, and the invariant the class keeps, state the
  promised properties:
  - the status stream is `notStarted` followed by `recording` for each start
    and `stopping, stopped(.success)` for each stop;
  - the utterance stream of a session is `nil` followed by the first 1, 2, …
    words of `this is a preview speech recognition`, each text the previous one
    plus a space and the next word;
  - a cancelled task yields nothing more.
- The word accumulation and the `compactMap` projection behind
  `newUtterance` (`utterance.dfy`).
- The description strings of the authorization verdict and of the status
  (`descriptions.dfy`), and the preview button's tap, label and disabled
  decisions (`preview_view.dfy`).

Timing is abstracted. The recording task runs only when `AdvanceTask(steps)`
is called: that call stands for the scheduler running the task through up to
`steps` words between the caller's own calls. A stop that arrives during a
word's sleep is the same as a stop before that word's cancellation check,
because the sleep throws on cancellation and the word is not yielded.

The preview's stop is not idempotent and its status stream repeats cases:
every start yields `recording` and every stop yields `stopping` and
`stopped(.success)` again (`Preview.StopTwice`).

## Model

| member | source | states |
|---|---|---|
| `SpeechRecognitionStatus.Id` | Sources/SwiftSpeechRecognizer/SpeechRecognitionStatus.swift:13-19 | the identifier is 1, 2, 3, 4 exactly for `notStarted`, `recording`, `stopping`, `stopped`, so it lies in 1..4 |
| `SpeechRecognitionStatus.Eq` | Sources/SwiftSpeechRecognizer/SpeechRecognitionStatus.swift:4-6 | equality holds exactly when both statuses are the same case, payload aside |
| `SpeechRecognitionStatus.EqReflexive` | Sources/SwiftSpeechRecognizer/SpeechRecognitionStatus.swift:4-6 | every status equals itself |
| `SpeechRecognitionStatus.EqSymmetric` | Sources/SwiftSpeechRecognizer/SpeechRecognitionStatus.swift:4-6 | equality is symmetric |
| `SpeechRecognitionStatus.EqTransitive` | Sources/SwiftSpeechRecognizer/SpeechRecognitionStatus.swift:4-6 | equality is transitive |
| `SpeechRecognitionStatus.StoppedAllEqual` | Sources/SwiftSpeechRecognizer/SpeechRecognitionStatus.swift:4-18 | any two `stopped` values are equal, a success and a failure included |
| `SpeechRecognitionStatus.DistinctCasesNotEqual` | Sources/SwiftSpeechRecognizer/SpeechRecognitionStatus.swift:13-19 | statuses of different cases have different identifiers and are never equal |
| `SpeechRecognitionStatus.EqCoarserThanValueEquality` | Sources/SwiftSpeechRecognizer/SpeechRecognitionStatus.swift:3-11 | identical values are equal; outside `stopped` equality is value equality; `stopped(success)` equals `stopped(failure)` though the values differ |
| `Descriptions.AuthorizationDescription` | Sources/SwiftSpeechRecognizerDependency/SwiftSpeechRecognizerDependency.swift:205-215 | "unknown!" exactly for values the switch does not know; "authorized" exactly for `authorized` |
| `Descriptions.AuthorizationDescriptionDistinguishesKnown` | Sources/SwiftSpeechRecognizerDependency/SwiftSpeechRecognizerDependency.swift:206-213 | two verdicts read the same iff they are equal or both unknown |
| `Descriptions.StatusDescription` | Sources/SwiftSpeechRecognizerDependency/SwiftSpeechRecognizerDependency.swift:217-226 | "stopped" exactly for `stopped`, whatever its outcome |
| `Descriptions.StatusDescriptionAgreesWithEq` | Sources/SwiftSpeechRecognizerDependency/SwiftSpeechRecognizerDependency.swift:218-225 | two statuses read the same iff status equality holds between them |
| `PreviewView.OnTap` | Sources/SwiftSpeechRecognizerDependency/SwiftSpeechRecognizerDependency.swift:140-144 | a tap starts recording iff the status equals `notStarted` or `stopped`, and stops it otherwise |
| `PreviewView.Label` | Sources/SwiftSpeechRecognizerDependency/SwiftSpeechRecognizerDependency.swift:146-150 | the title is "Stopping" iff stopping, and "Start recording" iff a tap would start |
| `PreviewView.Disabled` | Sources/SwiftSpeechRecognizerDependency/SwiftSpeechRecognizerDependency.swift:152 | the button is disabled iff the status equals `stopping` |
| `PreviewView.ButtonRespectsEq` | Sources/SwiftSpeechRecognizerDependency/SwiftSpeechRecognizerDependency.swift:140-152 | statuses equal under tag equality give the same tap, title and disabled state |
| `PreviewView.DisabledOnlyWhileStopping` | Sources/SwiftSpeechRecognizerDependency/SwiftSpeechRecognizerDependency.swift:140-152 | a disabled button reads "Stopping" and would only have stopped, never started |
| `PreviewView.EnabledLabelMatchesTap` | Sources/SwiftSpeechRecognizerDependency/SwiftSpeechRecognizerDependency.swift:140-150 | an enabled button's title announces the call its tap makes |
| `Utterance.Joined` | Sources/SwiftSpeechRecognizerDependency/SwiftSpeechRecognizerDependency.swift:59-68 | the words read so far, in order, separated by single spaces (its properties are stated by `Utterance.JoinedShape` and `Utterance.JoinedSnoc`) |
| `Utterance.JoinedShape` | Sources/SwiftSpeechRecognizerDependency/SwiftSpeechRecognizerDependency.swift:63-67 | the joined text holds every letter of every word plus exactly one space between two words, and begins with the first word |
| `Utterance.JoinedSnoc` | Sources/SwiftSpeechRecognizerDependency/SwiftSpeechRecognizerDependency.swift:63-64 | joining one more word to a non-empty list appends one space and the word |
| `Utterance.Utterances` | Sources/SwiftSpeechRecognizerDependency/SwiftSpeechRecognizerDependency.swift:59-69 | exactly one yielded text per word read from `Utterance.Words`, the list `this is a preview speech recognition` of line 60; what each text is, is stated by `Utterance.UtterancesStep`, `Utterance.UtterancesSnoc` and `Utterance.PreviewUtterances` |
| `Utterance.UtterancesStep` | Sources/SwiftSpeechRecognizerDependency/SwiftSpeechRecognizerDependency.swift:63-68 | each yielded text after the first is the previous text, a space and the next word |
| `Utterance.UtterancesSnoc` | Sources/SwiftSpeechRecognizerDependency/SwiftSpeechRecognizerDependency.swift:59-69 | reading one more word adds exactly one text, the words so far joined |
| `Utterance.UtterancesGrow` | Sources/SwiftSpeechRecognizerDependency/SwiftSpeechRecognizerDependency.swift:59-69 | every earlier text is a proper prefix of every later one |
| `Utterance.PreviewUtterances` | Sources/SwiftSpeechRecognizerDependency/SwiftSpeechRecognizerDependency.swift:60-68 | the texts start "this", "this is" and end "this is a preview speech recognition" |
| `Utterance.Compact` | Sources/SwiftSpeechRecognizerDependency/SwiftSpeechRecognizerDependency.swift:94 | the projection never yields more values than the stream it reads |
| `Utterance.CompactAppend` | Sources/SwiftSpeechRecognizerDependency/SwiftSpeechRecognizerDependency.swift:94-96 | the projection preserves order: it distributes over concatenation |
| `Utterance.CompactSingletons` | Sources/SwiftSpeechRecognizerDependency/SwiftSpeechRecognizerDependency.swift:94 | a `nil` yields nothing and a text yields itself, one for one |
| `Utterance.CompactMembership` | Sources/SwiftSpeechRecognizerDependency/SwiftSpeechRecognizerDependency.swift:94 | a text comes out of the projection iff it went in as non-`nil` |
| `Utterance.CompactWrap` | Sources/SwiftSpeechRecognizerDependency/SwiftSpeechRecognizerDependency.swift:94-96 | projecting texts that were all non-`nil` gives them back unchanged |
| `Preview.Apply` | Sources/SwiftSpeechRecognizerDependency/SwiftSpeechRecognizerDependency.swift:56-88 | each callback only appends to the streams, and all but the cancelling one yield something |
| `Preview.ApplyAll` | Sources/SwiftSpeechRecognizerDependency/SwiftSpeechRecognizerDependency.swift:36-46 | running a callback list only appends to the streams |
| `Preview.ApplyAllSnoc` | Sources/SwiftSpeechRecognizerDependency/SwiftSpeechRecognizerDependency.swift:37-39 | running a list then one more callback is running the longer list in order |
| `Preview.StartEffect` | Sources/SwiftSpeechRecognizerDependency/SwiftSpeechRecognizerDependency.swift:56-81 | the start callbacks yield `nil`, then `recording`, and launch a fresh task |
| `Preview.StopEffect` | Sources/SwiftSpeechRecognizerDependency/SwiftSpeechRecognizerDependency.swift:72-88 | the stop callbacks cancel the task, yield no utterance, and yield `stopping` then `stopped(.success)` |
| `Preview.StatusEvents` | Sources/SwiftSpeechRecognizerDependency/SwiftSpeechRecognizerDependency.swift:79-88 | the status events after the first: any sequence of `recording` (one per start) and `stopping, stopped(.success)` pairs (one per stop) |
| `Preview.WellFormedStatuses` | Sources/SwiftSpeechRecognizerDependency/SwiftSpeechRecognizerDependency.swift:77-89 | the status stream is `notStarted` followed by status events |
| `Preview.StatusEventsShape` | Sources/SwiftSpeechRecognizerDependency/SwiftSpeechRecognizerDependency.swift:77-89 | after the first entry, `notStarted` never recurs; every `stopping` is followed at once by `stopped(.success)`; every `stopped` is a success right after a `stopping` |
| `Preview.Session` | Sources/SwiftSpeechRecognizerDependency/SwiftSpeechRecognizerDependency.swift:56-69 | the utterance stream of one session: `nil`, then one text per word read, `n + 1` entries in all |
| `Preview.SessionAt` | Sources/SwiftSpeechRecognizerDependency/SwiftSpeechRecognizerDependency.swift:57-69 | a session yields `nil` first and then, at position j, the first j words joined |
| `Preview.SessionStep` | Sources/SwiftSpeechRecognizerDependency/SwiftSpeechRecognizerDependency.swift:63-68 | reading one more word extends the session by exactly the next text |
| `Preview.TaskInvariant` | Sources/SwiftSpeechRecognizerDependency/SwiftSpeechRecognizerDependency.swift:55-71 | the utterance stream ends with the current task's session, and the task's `utterance` variable is the last value yielded; before any start nothing has been yielded |
| `Preview.Consistent` | Sources/SwiftSpeechRecognizerDependency/SwiftSpeechRecognizerDependency.swift:54-89 | the status stream is well formed and the task invariant holds |
| `Preview.StatusesAfterStart` | Sources/SwiftSpeechRecognizerDependency/SwiftSpeechRecognizerDependency.swift:79-81 | yielding `recording` keeps the status stream well formed |
| `Preview.StatusesAfterStop` | Sources/SwiftSpeechRecognizerDependency/SwiftSpeechRecognizerDependency.swift:82-88 | yielding `stopping, stopped(.success)` keeps the status stream well formed |
| `Preview.SessionAfterStart` | Sources/SwiftSpeechRecognizerDependency/SwiftSpeechRecognizerDependency.swift:56-59 | after the start callback yields `nil`, a fresh task with no word read agrees with the stream |
| `Preview.StartOutcome` | Sources/SwiftSpeechRecognizerDependency/SwiftSpeechRecognizerDependency.swift:56-81 | starting keeps the stream invariants, begins a new session with `nil`, and leaves `newUtterance` unchanged |
| `Preview.StopOutcome` | Sources/SwiftSpeechRecognizerDependency/SwiftSpeechRecognizerDependency.swift:72-88 | stopping keeps the stream invariants and leaves every yielded utterance as it was |
| `Preview.StopTwice` | Sources/SwiftSpeechRecognizerDependency/SwiftSpeechRecognizerDependency.swift:82-87 | a second stop yields `stopping, stopped(.success)` again: stop is not idempotent |
| `Preview.NextUtterance` | Sources/SwiftSpeechRecognizerDependency/SwiftSpeechRecognizerDependency.swift:63-67 | the new utterance ends with the word, is the word alone when there was no utterance, and otherwise strictly extends the old one |
| `Preview.NextUtteranceJoined` | Sources/SwiftSpeechRecognizerDependency/SwiftSpeechRecognizerDependency.swift:59-67 | if the utterance so far is the words read joined, the next one is those words and the next word joined |
| `Preview.WordStep` | Sources/SwiftSpeechRecognizerDependency/SwiftSpeechRecognizerDependency.swift:59-69 | one iteration of the word loop yields the first next + 1 words joined and keeps the session invariant |
| `Preview.NewUtterancesGain` | Sources/SwiftSpeechRecognizerDependency/SwiftSpeechRecognizerDependency.swift:92-96 | texts yielded after a stream add exactly those texts to `newUtterance` |
| `Preview.Advance` | Sources/SwiftSpeechRecognizerDependency/SwiftSpeechRecognizerDependency.swift:58-70 | running the task only appends utterances and never touches the status stream |
| `Preview.LoopExit` | Sources/SwiftSpeechRecognizerDependency/SwiftSpeechRecognizerDependency.swift:60-69 | wherever the word loop stops (cancelled, out of steps, out of words) it has done what `Advance` says |
| `Preview.CancelledTaskYieldsNothing` | Sources/SwiftSpeechRecognizerDependency/SwiftSpeechRecognizerDependency.swift:61-74 | a cancelled task yields nothing more and changes nothing, however long it runs |
| `Preview.AdvanceNewUtterances` | Sources/SwiftSpeechRecognizerDependency/SwiftSpeechRecognizerDependency.swift:92-96 | while the task runs, `newUtterance` gains exactly the new texts, in order |
| `Preview.OneSession` | Sources/SwiftSpeechRecognizerDependency/SwiftSpeechRecognizerDependency.swift:54-89 | start, n words, stop, more steps: statuses `[notStarted, recording, stopping, stopped(success)]`, utterances `nil` then the first 1..n words joined, `newUtterance` the same texts |
| `Preview.RecordOneSession` | Sources/SwiftSpeechRecognizerDependency/SwiftSpeechRecognizerDependency.swift:36-89 | driving the recogniser itself through start, n words, stop and more steps leaves the statuses `[notStarted, recording, stopping, stopped(success)]`, the utterances `nil` then the first 1..n words joined, and `newUtterance` those texts; the invariant is kept |
| `Preview.PreviewRecognizer.constructor` | Sources/SwiftSpeechRecognizerDependency/SwiftSpeechRecognizerDependency.swift:33-89 | the callbacks are registered utterance stream first; only `notStarted` has been yielded; there is no task yet |
| `Preview.PreviewRecognizer.Valid` | Sources/SwiftSpeechRecognizerDependency/SwiftSpeechRecognizerDependency.swift:33-89 | the registered callbacks are the two streams' closures in creation order, and the traces and task are consistent |
| `Preview.PreviewRecognizer.NewUtterances` | Sources/SwiftSpeechRecognizerDependency/SwiftSpeechRecognizerDependency.swift:92-98 | the `newUtterance` stream is the utterance stream with its `nil`s dropped, so never longer than it |
| `Preview.PreviewRecognizer.RequestAuthorization` | Sources/SwiftSpeechRecognizerDependency/SwiftSpeechRecognizerDependency.swift:23-31 | a request yields `authorized` on the authorization stream |
| `Preview.PreviewRecognizer.Invoke` | Sources/SwiftSpeechRecognizerDependency/SwiftSpeechRecognizerDependency.swift:56-88 | running a callback has the effect `Apply` gives it and is logged once |
| `Preview.PreviewRecognizer.RunCallbacks` | Sources/SwiftSpeechRecognizerDependency/SwiftSpeechRecognizerDependency.swift:36-46 | every callback of the list runs exactly once, in list order |
| `Preview.PreviewRecognizer.StartRecording` | Sources/SwiftSpeechRecognizerDependency/SwiftSpeechRecognizerDependency.swift:36-40 | runs the start callbacks in registration order: `nil` then `recording` are yielded and a fresh task starts; invariants kept |
| `Preview.PreviewRecognizer.StopRecording` | Sources/SwiftSpeechRecognizerDependency/SwiftSpeechRecognizerDependency.swift:42-46 | runs the stop callbacks in registration order: the task is cancelled, no utterance changes, `stopping, stopped(.success)` are yielded; invariants kept |
| `Preview.PreviewRecognizer.AdvanceTask` | Sources/SwiftSpeechRecognizerDependency/SwiftSpeechRecognizerDependency.swift:58-70 | the word loop, checking cancellation before each word, has the effect `Advance` gives it; invariants kept |

## Left out

- Timing: the `Task.sleep` delays (lines 27, 62, 85) and the interleaving of the streams are not modelled; each stream is an ordered trace. In particular `stopped(.success)` follows `stopping` at once, whereas the source yields it 400 ms later, so a quick restart could yield `recording` in between.
- `AsyncStream` delivery: the streams are modelled as the sequence of yielded values, not as single-consumer async sequences. Splitting values between two readers of the same stream is not modelled.
- Restarting without stopping: the source overwrites `recordingTask`, and the earlier task keeps running and yielding. The model keeps only the newest task.
- `newBuffer` (lines 48-52) and `isRecognitionAvailable` (line 91): constant streams of platform values (two opaque audio buffers, `true`) with no logic.
- The `test` value built from `unimplemented(...)` (lines 11-21) and the dependency-key registration (lines 114-125): library plumbing with no behaviour.
- The `live` implementation over the platform speech framework: it is not part of this model.
- `SpeechRecognizerModel` (lines 162-202) and the view body beyond the button decision: asynchronous subscription loops and layout.
- `Outcome`: the `stopped` payload `Result<Void, Error>` may carry any error in the source. Here its failure case carries one of the three engine errors.
- Preview.Advance and Preview.ApplyAll: their own contracts state only that the streams are extended. What they yield is stated by `Preview.StartEffect`, `Preview.StopEffect`, `Preview.WordStep` and `Preview.OneSession`.
