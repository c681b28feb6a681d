# Speaker transcription with diarization — a Dafny model of the batch pipeline

The system polls a database for unprocessed audio files. For each row it
downloads the referenced `.wav` blob and runs a speaker-diarized
speech-to-text session on it. It stores the transcript as a JSON list of
single-key entries `{"Speaker <id>": text}` and then marks the row processed.
This project models the three decision procedures of `TranscriptionFile.py`
and proves what they promise:

- **Request validation** (`Pipeline.Validate`). The audio URL must be present
  and non-empty. Then its lower-cased form must end in `.wav`. After a
  successful download, the speech key and region must both be set. Each
  failed check gives a fixed error result and does not raise.
- **Transcript accumulation** (`Session`). A session is a finite sequence of
  events: `Recognized(isRecognizedSpeech, speakerId, displayText, text)`,
  `Stopped` and `Canceled`. `Session.Captured` is the transcript, stated as a
  function. `Session.CollectSegments` is the handler loop that appends
  segments and stops at the first stop or cancel, and it is proved to compute
  `Captured`. The reference descriptions `Picked` and `Positions` give the
  proved order, count and content of the segments.
- **Per-file pipeline and sweep** (`Pipeline`). `Diarize` gives the outcome of
  one file and the collaborator calls it makes. `SweepCalls` gives the call
  log of a whole sweep. The class `Pipeline.Backend` runs both step by step
  and appends each collaborator call to its `calls` log. Its methods are
  proved to produce exactly the logs that `Diarize` and `SweepCalls` describe.

The collaborators are fields of a `Services` value: blob download (success
with a scratch path, or an error text), the event stream of a speech session,
the JSON encoder, the speech credentials and the result of the
unprocessed-files query. A failed file is still marked processed. The model
keeps this behaviour of the source and proves it (`SweepMarksEveryRow`).

Two behaviours of the code that the model keeps:

- On a failed download the temp file is not deleted
  (TranscriptionFile.py:86-87), so `Diarize` logs no removal on that path.
- Every fetched row is marked processed, whatever the pipeline returned
  (TranscriptionFile.py:159-162).

## Model

| member | source | states |
|---|---|---|
| Text.LowerChar | TranscriptionFile.py:75 | only an upper-case letter changes, a letter stays a letter, and no upper-case letter is left |
| Text.Lower | TranscriptionFile.py:75 | the lower-cased string has the same length and no upper-case letter |
| Text.LowerIdempotent | TranscriptionFile.py:75 | lower-casing twice gives the same string as lower-casing once |
| Text.LowerSuffix | TranscriptionFile.py:75 | lower-casing commutes with taking a suffix, so `.lower().endswith(...)` depends only on the last characters |
| Text.EndsWithWavIsLowerSuffix | TranscriptionFile.py:75-76 | the extension test holds exactly when the last four characters of the lower-cased URL are ".wav", and lower-casing the URL first does not change its answer |
| Text.EndsWithWavAnyCase | TranscriptionFile.py:75-76 | a URL passes exactly when it ends in '.', then w or W, a or A, v or V |
| Text.BlankIffNoContent | TranscriptionFile.py:117 | a string is all whitespace exactly when it has no non-whitespace character |
| Text.LStripSpec | TranscriptionFile.py:117 | lstrip() keeps a suffix, drops only whitespace, and the kept part does not start with whitespace |
| Text.RStripSpec | TranscriptionFile.py:117 | rstrip() keeps a prefix, drops only whitespace, and the kept part does not end in whitespace |
| Text.StripEmptyIffBlank | TranscriptionFile.py:117 | strip() leaves nothing exactly when every character is whitespace |
| Session.SpeakerLabel | TranscriptionFile.py:113 | the key is "Speaker " followed by the SpeakerId, or by "Unknown" when it is absent |
| Session.CapturesIffNonBlank | TranscriptionFile.py:111-117 | an event is kept exactly when it is recognised speech and its text is non-empty and non-empty after strip(), that is, when it has a non-whitespace character |
| Session.SegmentOf | TranscriptionFile.py:113-118 | the segment of a kept event has a non-whitespace character in its text |
| Session.StopIndex | TranscriptionFile.py:122-133 | the number of events delivered before the first stop or cancel is at most the stream length |
| Session.StopIndexIsFirstStop | TranscriptionFile.py:122-133 | every event before StopIndex is a recognition event, and the event at StopIndex, if any, is a stop or a cancel |
| Session.Captured | TranscriptionFile.py:105-133 | there are never more segments than events delivered before the first stop or cancel |
| Session.CollectSegments | TranscriptionFile.py:105-133 | the handler loop, which appends kept segments and ends at the first stop or cancel, returns exactly Captured(events) |
| Session.CapturedIsPicked | TranscriptionFile.py:109-133 | from any position on, the transcript is the contributions of the events up to the next stop or cancel, in order |
| Session.CapturedUpToStop | TranscriptionFile.py:109-133 | the transcript is the contribution of each event before the first stop or cancel, in arrival order; later events are ignored |
| Session.Positions | TranscriptionFile.py:109-118 | each listed position lies in range and holds an event the handler keeps |
| Session.PositionsAscending | TranscriptionFile.py:109-118 | the kept positions are strictly ascending |
| Session.PositionsComplete | TranscriptionFile.py:109-118 | every kept position of the range is listed |
| Session.PickedAtPositions | TranscriptionFile.py:109-118 | the contributions of a range are one segment per kept position, the k-th segment from the k-th position |
| Session.CapturedInArrivalOrder | TranscriptionFile.py:109-118 | the k-th segment comes from the k-th kept event before the first stop or cancel, and there are as many segments as such events |
| Session.CapturedCount | TranscriptionFile.py:109-118 | the number of segments equals the number of kept events before the first stop or cancel |
| Session.CapturedSegmentsAreNonBlank | TranscriptionFile.py:116-118 | every segment has a non-whitespace character in its text and a key starting with "Speaker " |
| Session.StopEndsCapture | TranscriptionFile.py:122-133 | whatever follows a stop or a cancel is ignored, and the transcript is that of the events before it |
| Session.StopAndCancelAlike | TranscriptionFile.py:122-128 | a stop and a cancel at the same point give the same transcript |
| Session.TwoSpeakerSession | TranscriptionFile.py:109-128 | two recognised turns by speakers 1 and 2 and then a stop give the entries "Speaker 1": "hello" and "Speaker 2": "hi there", in that order |
| Pipeline.PayloadFor | TranscriptionFile.py:158 | the request the sweep builds for a row carries the row's blob URL as its audio_url, read back as in line 71 |
| Pipeline.Validate | TranscriptionFile.py:70-76 | "Missing 'audio_url' argument" exactly when the URL is absent or empty; "Only .wav files are accepted" exactly when it is non-empty without the extension; otherwise the URL is accepted and passes the extension test |
| Pipeline.RejectedRequestTouchesNothing | TranscriptionFile.py:73-76 | a rejected request returns the validation error and makes no collaborator call |
| Pipeline.AcceptedRequestDownloadsFirst | TranscriptionFile.py:78-85 | for an accepted request, the first collaborator call is the download of its URL |
| Pipeline.DownloadFailureReported | TranscriptionFile.py:79-87 | a failed download returns "Failed to download blob via managed identity: " and the error text, after the download call alone |
| Pipeline.MissingCredentialsAfterDownload | TranscriptionFile.py:89-91 | with a missing or empty key or region after a successful download, the result is "SPEECH_KEY or SPEECH_REGION not set" after the download and the scratch-file removal, with no session and no insert |
| Pipeline.SilentSessionNotStored | TranscriptionFile.py:140-141 | a session that keeps nothing returns "No speech recognized" and inserts nothing |
| Pipeline.DiarizeNeverMarks | TranscriptionFile.py:69-147 | the per-file pipeline never marks a file processed |
| Pipeline.InsertIsLastAndReturned | TranscriptionFile.py:143-147 | any insert is the last call, is for the file's own document and stores the value returned; a returned transcript has been inserted |
| Pipeline.DiarizeInsertsLast | TranscriptionFile.py:143-147 | every insert in one pipeline run is its last call and is for the file's own document |
| Pipeline.TranscriptIffAllStepsSucceed | TranscriptionFile.py:69-147 | a transcript is returned exactly when validation, download and credentials succeed and the session keeps speech, and it is the encoding of the kept segments |
| Pipeline.UpperCaseWavAccepted | TranscriptionFile.py:75-76 | an upper-case ".WAV" URL is accepted |
| Pipeline.Mp3Rejected | TranscriptionFile.py:75-76 | an ".mp3" URL is rejected with "Only .wav files are accepted" and no call |
| Pipeline.SweepLogMarks | TranscriptionFile.py:156-162 | when no row's own calls mark anything, the sweep marks the fetched ids exactly once each, in fetch order |
| Pipeline.SweepMarksEveryRow | TranscriptionFile.py:150-163 | every fetched row is marked processed exactly once, in fetch order, whatever its pipeline returned, and nothing else is marked |
| Pipeline.SweepLogInsertMarked | TranscriptionFile.py:156-162 | when each row inserts only as its last call and only for itself, every insert is followed by its own row's mark with no other mark between |
| Pipeline.InsertFollowedByItsMark | TranscriptionFile.py:150-163 | in a sweep, every insert is followed by the mark of the same document, with no other mark in between |
| Pipeline.Backend.FetchUnprocessedFiles | TranscriptionFile.py:54-58 | returns the rows of the unprocessed-files query |
| Pipeline.Backend.DownloadBlob | TranscriptionFile.py:79-85 | returns what blob storage answers for the URL and logs one download call |
| Pipeline.Backend.StartTranscribing | TranscriptionFile.py:130 | returns the session's event stream for the scratch file and logs one transcription call |
| Pipeline.Backend.RemoveScratchFile | TranscriptionFile.py:135-138 | logs one removal of the scratch file |
| Pipeline.Backend.InsertTranscript | TranscriptionFile.py:61-62 | logs one insert of the transcript for the document |
| Pipeline.Backend.MarkFileProcessed | TranscriptionFile.py:65-66 | logs one mark of the document |
| Pipeline.Backend.SpeechToTextDiarize | TranscriptionFile.py:69-147 | the step-by-step pipeline returns Diarize's outcome and appends exactly Diarize's calls to the log |
| Pipeline.Backend.ProcessFile | TranscriptionFile.py:156-162 | one sweep iteration appends the row's pipeline calls and then its mark |
| Pipeline.Backend.ProcessUnprocessedFiles | TranscriptionFile.py:150-163 | the sweep appends exactly SweepCalls of the fetched rows to the log, and an empty fetch appends nothing |

## Left out

- The database gateway (TranscriptionFile.py:24-50) is not modelled: connection strings, cursors and commits. Inserts and marks are entries in the call log. A database error would abort the rest of a sweep in the source; the model assumes every database call succeeds.
- Blob download and temp-file creation (TranscriptionFile.py:79-85) are network and filesystem I/O. They are the `download` oracle of `Services`, which answers with a scratch path or an error text.
- The temp file left behind after a failed download is not tracked, and no removal is logged on that path.
- The `time.sleep` poll loop and the SDK's callback threads (TranscriptionFile.py:130-133) are concurrency. The model delivers a finite event sequence in order. A stream that ends with no stop or cancel is treated as if it stopped; the source would wait forever.
- Setting up the speech session can raise (TranscriptionFile.py:93-103, 130), for example on a file that is not valid audio. The exception would leave the scratch file behind and end the sweep at that row, so that row and every later one would stay unmarked. The `session` oracle is total, so the model does not capture this, and `SweepMarksEveryRow` holds only when no such exception occurs.
- Utterances that arrive after a stop or cancel are still appended in the source: `on_transcribed` stays connected during the 0.5 s sleep (TranscriptionFile.py:131-132) and until the transcript is encoded (TranscriptionFile.py:144). The model cuts the stream at the first stop or cancel, so `StopEndsCapture` describes that abstraction rather than this race.
- `stop_transcribing_async` (TranscriptionFile.py:133) is a no-op once the session has ended, so it is not logged.
- `os.remove` at TranscriptionFile.py:90 is not guarded, so an OSError there would propagate. The model assumes the removal succeeds. At TranscriptionFile.py:135-138 the error is ignored, which matches the model.
- `json.loads` of a string context (TranscriptionFile.py:70) is not modelled: the payload arrives already parsed. Only string or null `audio_url` values are modelled.
- `json.loads` of the SDK result (TranscriptionFile.py:112) is modelled as the structured event fields. A SpeakerId or DisplayText that is present but JSON null is read as absent. The source would then write "Speaker None", or skip the utterance.
- `json.dumps` is the `serialize` oracle of `Services`. The error payloads `{"error": ...}` are the `Error(message)` outcomes. No property here depends on the encoder being injective, so the model does not assume it.
- Text.LowerChar: lower-cases only A-Z. Python's `str.lower` also maps other letters, but no non-ASCII character lower-cases to '.', 'w', 'a' or 'v', so the `.wav` test gives the same answer.
- Environment lookups and `load_dotenv` (TranscriptionFile.py:12-21) are configuration. The speech key and region are fields of `Services`, and the SQL statement texts are not modelled.
- Idempotence of the mark statement depends on SQL text, which is configuration, so it is not modelled.
- Console `print` logging is not modelled.
- `function_app.py` is not modelled. It is the HTTP wrapper that maps a completed sweep to 200 and an exception to 500.
