# Speech-session controller of VoiceInputSample

VoiceInputSample is a one-page dictation app: a button toggles a browser speech-recognition
session and the recognised text accumulates on screen. This project models the controller
inside the `App` component, without React, as three Dafny modules plus a helper:

- `ErrorClassifier` (error_classifier.dfy): the error callback's mapping from an error code
  and "is the page served over HTTPS" to the message shown, or to none for `aborted` and
  `no-speech`.
- `TranscriptAccumulator` (transcript_accumulator.dfy): the result callback's loop. It walks
  the result slots from `resultIndex` on, appends final text to the persistent finalized
  text, collects interim text in a scratch buffer, and displays finalized + interim. The
  loop is the method `Accumulate`, proved equal to the specification function `Apply`.
- `Session` (session_controller.dfy): the controller's state as a value `Snapshot`, one pure
  transition per operation (`Started`, `Stopped`, `Ended`, `AfterResult`, `AfterError`,
  `Toggled`), an `Action`/`Run` model of the environment calling them in any order, and the
  class `SessionController`. The class has the component's fields: the session handle,
  `isRecording`, `transcript`, `finalized`, `error`, `apiAvailable` and a fresh-id counter.
  Its methods update those fields in place and are proved to perform exactly the pure
  transitions. The invariant `Consistent` says three things. The button shows recording
  exactly when a handle is stored. The stored identity has been handed out. The finalized
  text is a prefix of the displayed one. Every transition keeps it, and from it follows that
  the finalized text only grows over any run, restarts included.
- `Wrappers` (wrappers.dfy): `Option`, for the nullable handle and error message.

Behaviour of the code worth knowing, modelled as written:

- Only the end callback checks session identity (src/App.tsx:117). The result and error
  callbacks do not (src/App.tsx:73-111), so a superseded session's result or error still
  changes the state. Its final text is appended to the new session's finalized text, as
  `StaleResultAppendsToNewSession` shows. `OnResult` and `OnError` take the session id only
  to show that they ignore it.
- Start seeds the finalized text from the displayed transcript (src/App.tsx:66). That
  transcript may still end in interim text, which then becomes final.
- Start does not check whether a session is already live (src/App.tsx:56-130). Only `Toggle`
  calls it when not recording. Called directly while recording, it replaces the handle.

## Model

| member | source | states |
|---|---|---|
| ErrorClassifier.Classify | src/App.tsx:95-103 | no message exactly for `aborted` and `no-speech`; `network` gives the connectivity message on HTTPS and the HTTPS-required message otherwise; any other code gives "识别错误: " + code |
| ErrorClassifier.GenericMessageCarriesCode | src/App.tsx:103 | any code other than the benign ones and `network` yields exactly "识别错误: " followed by the code verbatim |
| ErrorClassifier.NetworkMessagesAreDistinct | src/App.tsx:99-103 | the secure and insecure network messages differ from each other and from every generic message |
| ErrorClassifier.UnsupportedIsNeverClassified | src/App.tsx:95-103 | no error code produces the unsupported-browser message |
| ErrorClassifier.MessageDeterminesCause | src/App.tsx:95-103 | two events with the same message had the same code, and for `network` the same HTTPS setting |
| TranscriptAccumulator.Apply | src/App.tsx:73-88 | the old finalized text is a prefix of the new one, which is a prefix of the displayed text |
| TranscriptAccumulator.Accumulate | src/App.tsx:74-87 | the loop yields finalized + final texts from resultIndex on, and displays that + interim texts from resultIndex on |
| TranscriptAccumulator.JoinedAppend | src/App.tsx:77-86 | collecting texts over two consecutive runs of slots is collecting each and concatenating |
| TranscriptAccumulator.JoinedUniform | src/App.tsx:80-85 | if all slots are final, all text is final and none interim; if all are interim, the reverse |
| TranscriptAccumulator.JoinedIsSelected | src/App.tsx:80-85 | the final buffer is exactly the texts of the final slots in order, the interim buffer those of the interim slots |
| TranscriptAccumulator.JoinedPartitions | src/App.tsx:80-85 | every character of every slot's text goes into exactly one of the two buffers (multisets and lengths add up) |
| TranscriptAccumulator.EarlierSlotsIgnored | src/App.tsx:77 | slots below resultIndex do not affect the outcome |
| TranscriptAccumulator.EmptyEventKeepsFinalized | src/App.tsx:77-87 | an event with resultIndex at or past the end keeps the finalized text and displays it alone |
| TranscriptAccumulator.InterimNeverFinalized | src/App.tsx:80-87 | in every event the finalized text grows by the visited final slots' texts only, and the display adds the visited interim slots' texts after it |
| TranscriptAccumulator.AllInterimKeepsFinalized | src/App.tsx:83-87 | an event whose visited slots are all interim keeps the finalized text and displays all their text after it |
| TranscriptAccumulator.SplitEventSameFinalized | src/App.tsx:77-86 | delivering the visited slots in two events, split at any index, finalizes the same text as one event |
| TranscriptAccumulator.InterimReplacedByFinal | src/App.tsx:74-87 | interim "hi" then final "hi there" displays "hi there", not "hihi there" |
| TranscriptAccumulator.FeedAppendsFinals | src/App.tsx:75-82 | over any event sequence the finalized text is the start text + each event's final texts in order, so it only grows |
| Session.Initial | src/App.tsx:36-40 | the first state is consistent and not recording |
| Session.Started | src/App.tsx:56-130 | start keeps the invariant |
| Session.Stopped | src/App.tsx:47-54 | stop keeps the invariant |
| Session.Ended | src/App.tsx:113-121 | the end callback keeps the invariant |
| Session.AfterResult | src/App.tsx:73-88 | the result callback keeps the invariant |
| Session.AfterError | src/App.tsx:90-111 | the error callback keeps the invariant |
| Session.Toggled | src/App.tsx:132-138 | toggling keeps the invariant |
| Session.Step | src/App.tsx:47-142 | every action keeps the invariant and leaves apiAvailable alone |
| Session.StopIdempotent | src/App.tsx:47-54 | stop twice equals stop once; afterwards no handle and not recording |
| Session.StartWithoutCapability | src/App.tsx:60-63 | without the capability, start sets the unsupported message and changes nothing else |
| Session.StartWithCapability | src/App.tsx:65-129 | start clears the error, seeds finalized from the transcript, keeps the transcript, stores the counter's id (not the old handle), advances the counter and shows recording |
| Session.RestartPreservesTranscript | src/App.tsx:47-66 | stop then start makes the text shown before the stop the new finalized text |
| Session.StaleEndIgnored | src/App.tsx:117-120 | the end of a session that is not the stored one changes nothing |
| Session.LiveEndStops | src/App.tsx:117-120 | the end of the stored session clears the handle and stops recording |
| Session.LateEndAfterRestart | src/App.tsx:113-123 | the old session's end after stop and restart leaves the new session live |
| Session.EarlierSessionEndIgnored | src/App.tsx:113-123 | after a start, the end of any session started earlier changes nothing |
| Session.RunNextIdGrows | src/App.tsx:68-123 | the identity counter never decreases over any run |
| Session.RetiredIdNeverReturns | src/App.tsx:113-123 | a replaced or stopped session never becomes the stored one again over any run, so its late end is always ignored |
| Session.ToggleFlips | src/App.tsx:132-138 | after a toggle the app records exactly when it was not recording and the capability exists |
| Session.StaleResultAppendsToNewSession | src/App.tsx:73-82 | a superseded session's result still appends its final text to the new session's finalized text |
| Session.ErrorLastWriteWins | src/App.tsx:95-110 | a benign code keeps the state; any other code replaces the error with its classification |
| Session.RunKeepsConsistent | src/App.tsx:47-142 | every run of actions, in any order, keeps the invariant |
| Session.RunOnlyAppends | src/App.tsx:66-82 | over every run, restarts included, the finalized text only grows |
| Session.NoCapabilityNeverRecords | src/App.tsx:60-63 | without the capability no run ever records or stores a session |
| Session.SessionController.constructor | src/App.tsx:36-41 | the fields start as the initial state |
| Session.SessionController.Start | src/App.tsx:56-130 | startRecording's field updates are exactly `Started` |
| Session.SessionController.Stop | src/App.tsx:47-54 | stopRecording's field updates are exactly `Stopped` |
| Session.SessionController.Toggle | src/App.tsx:132-138 | toggleRecording is exactly `Toggled` |
| Session.SessionController.Teardown | src/App.tsx:140-142 | the unmount teardown is a stop |
| Session.SessionController.OnResult | src/App.tsx:73-88 | the result callback stores the accumulator's finalized and displayed text: exactly `AfterResult` |
| Session.SessionController.OnError | src/App.tsx:90-111 | the error callback sets the error only when the code is not benign: exactly `AfterError` |
| Session.SessionController.OnEnd | src/App.tsx:113-121 | the end callback clears the handle and recording only for the stored session: exactly `Ended` |
| Session.RestartScenario | src/App.tsx:113-123 | start, a final "你好", stop, start, and the first session's late end leave the new session live with "你好" kept |

## Left out

- The debug telemetry `fetch` calls to 127.0.0.1 (src/App.tsx:58, 93, 106, 115, 126): network I/O with no effect on the state.
- `Date.now()` and the start timestamp (src/App.tsx:41, 92, 125): wall-clock time used only for diagnostics.
- The capability's own `start()`, `stop()` and audio behaviour (src/App.tsx:50, 128): foreign calls. Events are inputs the environment may deliver at any time, in any order.
- The session configuration (continuous, interim results, language "zh-CN", src/App.tsx:69-71): it is written to the foreign object and affects nothing modelled.
- The probe of `SpeechRecognition` or `webkitSpeechRecognition` (src/App.tsx:43-45): reduced to the boolean `apiAvailable`, fixed when the controller is built.
- Reading `window.location.protocol` (src/App.tsx:96-97): `isSecure` is a parameter.
- Only the first candidate of a result slot is used (src/App.tsx:79), so a slot carries just one text.
- The session handle is a number from a counter, not an object; identity comparison of objects becomes equality of numbers.
- React's hooks and batched, stale-closure updates (src/App.tsx:36-42, 130): the state is one object whose fields change at once.
- Rendering, the button, the icons and the styles (src/App.tsx:144-189): presentation.
