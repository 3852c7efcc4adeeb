# session-scribe-whisper-api, modelled in Dafny

The repository transcribes recorded sessions. It downloads a recording, or a
video that it converts to mp3. It splits the audio into chunks at the middle
of long silences, which ffmpeg's `silencedetect` filter reports, and
transcribes every chunk with Whisper. The chunk offsets are added back to the
segment timestamps, and the chunk results are concatenated into one
transcript. That transcript is written as JSON and rendered as a PDF, which
is uploaded to Google Cloud Storage. Finally the current pipeline deletes
the job's local files: the raw audio, the JSON and the PDF. The older one
deletes only the raw audio.

There are two pipelines:
- `api/main.py`, the older one, returns the PDF's public URL.
- `whisper_api/main.py`, the current one, also uploads the audio and upserts
  a row into Supabase.

This project models:
- the silence splitter, as a scan over the filter's log lines;
- the short-segment coalescer;
- the offset loop (an in-place rewrite of an array of segments);
- the aggregation loop;
- the job paths and slugs;
- both `process_audio` functions.

Each `process_audio` is modelled as a sequence of fallible stages run
against a filesystem object, in its `try`/`except`/`finally` structure.

The files and their modules:
- `common.dfy` (`Common`): segments, chunk boundaries, transcriptions, the stage names, exceptions and outcomes.
- `numerals.dfy` (`Numerals`): `str(int)` and its inverse.
- `paths.dfy` (`Paths`): the job paths, `pathlib` joining, `basename`/`rsplit`.
- `silence.dfy` (`Silence`): `split_silences`.
- `coalesce.dfy` (`Coalesce`): `coalesce_short_transcript_segments` and `_combine_segments`.
- `transcribe.dfy` (`Transcribe`): adding back the chunk offsets.
- `aggregate.dfy` (`Aggregate`): the loop over the per-chunk results.
- `files.dfy` (`Files`): the filesystem as a set of existing paths, with `open`-for-writing and `os.remove`.
- `stages.dfy` (`Stages`): what the external services answer, and the first failing stage of a stage list.
- `steps.dfy` (`Steps`): the source download and the split-and-transcribe stages.
- `api_main.dfy` (`ApiMain`): `api/main.py`'s `process_audio`, as written and corrected.
- `whisper_main.dfy` (`WhisperMain`): `whisper_api/main.py`'s `process_audio`, as written and corrected.

External tools and services are parameters, collected in `Stages.Services`:
- the model download, `mkdir`, the source download or conversion;
- the credentials, the two uploads (each gives a URL or fails), the `ffmpeg.probe` duration;
- the `silencedetect` log lines, the speech model as a function from a chunk to a transcription or failure;
- the JSON dump, the PDF rendering, the upsert.

## Model

| member | source | states |
|---|---|---|
| Numerals.NatToString | whisper_api/main.py:82 | the decimal form of a natural is non-empty, all digits, and one character exactly below 10 |
| Numerals.IntToString | whisper_api/main.py:82 | `str(unique_id)` is non-empty and never starts with `/` |
| Numerals.DigitChar | whisper_api/main.py:82 | a digit value gives a digit character |
| Numerals.DigitCharValue | whisper_api/main.py:82 | reading back a digit character gives its value |
| Numerals.NatToStringRoundTrip | whisper_api/main.py:82 | the digits of `str(n)` read back as `n` |
| Numerals.IntToStringRoundTrip | whisper_api/main.py:82 | parsing `str(i)` gives `i`, negative numbers included |
| Numerals.NegativeRoundTrip | whisper_api/main.py:82 | a minus sign before a decimal form reads back as the negated number |
| Numerals.DigitsNotSigned | whisper_api/main.py:82 | a non-empty run of digits parses as its digit value |
| Numerals.IntToStringInjective | whisper_api/main.py:82 | different ids give different slugs |
| Paths.LastIndexOf | api/main.py:134 | `None` exactly when the character is absent; otherwise the position of its last occurrence |
| Paths.SlugOfId | whisper_api/main.py:82 | the slug is non-empty and holds no `/` and no `.` |
| Paths.LastIndexOfAppend | api/main.py:134 | appending text without the character keeps its last position |
| Paths.LastIndexOfSeparator | api/main.py:134 | the last separator is found before a tail that lacks it |
| Paths.VideoSlugRoundTrip | api/main.py:134 | for a video, the slug read back from `RAW_AUDIO_DIR/slug.mp3` is the slug |
| Paths.AudioSlugRoundTrip | api/main.py:134 | for an audio source, the slug reads back unchanged exactly when it holds no `.` |
| Paths.TranscriptPathRoundTrip | api/main.py:206-207 | the slug reads back from `get_transcript_path(slug)` |
| Paths.KindsDistinct | whisper_api/main.py:85-87 | for two non-empty slugs that do not start with '/', such as `str(unique_id)`, an audio path, a transcript path and a PDF path are never equal across kinds (an absolute slug would replace the directory) |
| Paths.SameKindDistinct | whisper_api/main.py:85-87 | two different non-empty slugs that do not start with '/' and contain no '.', such as `str(unique_id)`, give different audio, transcript and PDF paths (with a dot, `a.mp3` as audio and `a` as video would share a path) |
| Paths.JobFilesDisjoint | whisper_api/main.py:82-87 | jobs with different ids share none of their files |
| Coalesce.CoalesceShortTranscriptSegments | whisper_api/audio.py:83-105 | the loop returns the specification `Coalesced` of the segments |
| Coalesce.CoalesceFromShape | whisper_api/audio.py:95-114 | from an accumulator: 1 to n+1 results, each but the last at least 200 characters, the first start and the last end kept |
| Coalesce.CoalesceFromJoin | whisper_api/audio.py:95-114 | from an accumulator, the results joined with spaces read as the input joined with spaces |
| Coalesce.CoalescedCount | whisper_api/audio.py:92-105 | no result exactly for no input, never more results than segments |
| Coalesce.CoalescedLongEnough | whisper_api/audio.py:98-102 | every result but the last has at least 200 characters of text |
| Coalesce.CoalescedPreservesTranscript | whisper_api/audio.py:109-114 | joining the results with spaces gives joining the inputs; first start and last end kept |
| Coalesce.CoalesceFromFixed | whisper_api/audio.py:95-105 | segments already long enough are returned unchanged |
| Coalesce.CoalesceIdempotent | whisper_api/audio.py:83-105 | coalescing twice is coalescing once |
| Silence.DigitsEnd | whisper_api/audio.py:126 | the maximal run of digits from a position |
| Silence.DigitsEndUnique | whisper_api/audio.py:126 | any maximal run of digits is the one `DigitsEnd` finds |
| Silence.NumeralEnd | whisper_api/audio.py:126 | the greedy match of `[0-9]+(\.?[0-9]*)`: none exactly without a leading digit, and not extendable |
| Silence.NumeralEndAt | whisper_api/audio.py:126 | a numeral followed by neither a digit nor a dot is matched whole |
| Silence.NumeralValue | whisper_api/audio.py:150-151 | `float` of a matched numeral is non-negative |
| Silence.MatchAt | whisper_api/audio.py:125-127 | a match at a position is the pattern with its two numerals at that position |
| Silence.MatchAtComplete | whisper_api/audio.py:125-127 | where the pattern occurs, the match finds it with the same end numeral |
| Silence.SearchFrom | whisper_api/audio.py:148 | a search result lies at or after the start and is an occurrence |
| Silence.MatchSilenceEnd | whisper_api/audio.py:148 | `search` yields only real occurrences |
| Silence.SearchFromComplete | whisper_api/audio.py:148 | an occurrence at or after the start is found, no later than it |
| Silence.MatchSilenceEndExact | whisper_api/audio.py:148-150 | `search` matches exactly when the pattern occurs, at its leftmost occurrence or earlier |
| Silence.SplitSilencesStream | whisper_api/audio.py:142-166 | the `readline` loop yields the specification `SplitSilences`, and the counter is its length |
| Silence.ScanChain | whisper_api/audio.py:144-158 | accepted chunks start at `cur_start`, chain end to start, are each at least the minimum long, and end at the final `cur_start` |
| Silence.SplitSilencesContiguous | whisper_api/audio.py:118-166 | chunks start at 0, follow one another without gap or overlap, each at least the minimum long |
| Silence.ChainOrdered | whisper_api/audio.py:156-157 | in a chain of positive-length chunks, earlier ones end before later ones start |
| Silence.SplitSilencesIncreasing | whisper_api/audio.py:153-165 | with a positive minimum, chunks are strictly increasing and never overlap |
| Silence.UncoveredTailAtMostMinimum | whisper_api/audio.py:160-165 | the chunks reach the duration, or leave uncovered at most the minimum length |
| Silence.NoSplitsWholeFile | whisper_api/audio.py:163-164 | with no accepted split, one chunk `(0, duration)` when longer than the minimum, none otherwise |
| Silence.IgnoredLine | whisper_api/audio.py:145-149 | a non-empty line without a silence report changes nothing |
| Silence.TailDroppedAfterLastSplit | whisper_api/audio.py:160-165 | for any log, when the recording ends after the last `cur_start` but within the minimum of it, the chunks are exactly the accepted splits and stop short of the end |
| Transcribe.AddBackOffsets | whisper_api/transcribe.py:44-46 | every segment's start and end move by the offset in place, text unchanged |
| Transcribe.TranscribeSegment | whisper_api/transcribe.py:37-48 | fails exactly when the model fails; otherwise the model's result shifted by the chunk start |
| Transcribe.ShiftKeepsShape | api/main.py:95-97 | shifting keeps the number, texts and durations of segments |
| Transcribe.ShiftByZero | api/main.py:95-97 | a zero offset changes nothing |
| Transcribe.ShiftCompose | api/main.py:95-97 | two shifts are one shift by the sum; shifting back by the negated offset restores the segments |
| Transcribe.WithOffsetsKeeps | api/main.py:94-99 | text, language and segment count are kept; offset 0 is the identity |
| Aggregate.TranscribeAudio | api/main.py:113-127 | the loop returns the specification `TranscribeChunks` of the chunks |
| Aggregate.FailurePropagates | api/main.py:117-121 | a chunk that fails makes the whole transcription fail |
| Aggregate.TranscribeEachSpec | api/main.py:117-119 | the map succeeds exactly when every chunk succeeds; result i is chunk i shifted by its start |
| Aggregate.ConcatTextsAppend | api/main.py:120 | text concatenation distributes over joining runs of results |
| Aggregate.ConcatSegmentsAppend | api/main.py:121 | segment concatenation distributes over joining runs of results |
| Aggregate.SegmentsInPlace | api/main.py:121 | segment k of result j sits after all segments of the earlier results |
| Aggregate.TextInPlace | api/main.py:120 | result j's text sits after the texts of the earlier results |
| Aggregate.TimestampsPlaced | api/main.py:95-97 | segment k of chunk j in the aggregate is the model's segment shifted by chunk j's start |
| Aggregate.ChunkResult | api/main.py:117-127 | on success there is one result per chunk, result j is chunk j's transcription shifted by its start, and the job's segments are their concatenation |
| Aggregate.AggregatedLanguageAndCount | api/main.py:123-127 | the language is always `"en"`, and the segment count is the sum over chunks |
| Aggregate.SegmentCount | api/main.py:121 | the concatenated segments number the sum of the per-result counts |
| Files.FileSystem.Write | whisper_api/audio.py:77-78 | writing a path adds it and nothing else |
| Files.FileSystem.Remove | api/main.py:200 | removing an existing path drops it; a missing one raises `FileNotFoundError` and changes nothing |
| Files.FileSystem.RemoveIfExists | whisper_api/main.py:157-159 | the guarded removal drops the path if present and never raises |
| Stages.FirstFailure | whisper_api/main.py:89-153 | none exactly when every stage succeeds; otherwise a failing stage preceded only by successful ones |
| Stages.CompletedIsPrefix | whisper_api/main.py:89-149 | the completed stages are a prefix, all succeeded, and the next one failed |
| Stages.PassedIffCompleted | whisper_api/main.py:89-149 | a stage passed exactly when it is among the completed ones |
| Stages.CompletedUpToFailure | whisper_api/main.py:89-153 | no failure exactly when everything completed; otherwise the completed stages stop at the failing one |
| Steps.AcquireAudio | whisper_api/audio.py:58-79 | the source stage succeeds as the services say, skipping an audio file already present, and creates the raw audio file exactly then |
| Steps.SetUpJob | whisper_api/main.py:92-109 | the model download, directory and source stages fail at `SetUpFailure`, and only the raw audio file is created, exactly on success |
| Steps.SplitAndTranscribe | api/main.py:113-127 | fails at the split without a probe, at transcription when a chunk fails, and otherwise gives `TranscribeChunks` of the split |
| ApiMain.ApiFailureIsFirst | api/main.py:164-196 | the try block stops at the first failing stage of `ApiStages` |
| ApiMain.ApiPassed | api/main.py:164-193 | the source, the JSON and the PDF stages pass exactly when they and all earlier stages succeed |
| ApiMain.ApiCreatedByStage | api/main.py:130-137 | the raw audio, the JSON and the PDF exist after the try block exactly when their stages passed |
| ApiMain.ApiTry | api/main.py:164-193 | the try block fails at `ApiFailure` and creates exactly `ApiCreated` |
| ApiMain.ApiBack | api/main.py:189-193 | after the set-up stages, `transcribe_audio` fails at `ApiFailure`, creating the JSON when written and the PDF when rendered |
| ApiMain.ProcessAudioAsWritten | api/main.py:154-203 | the audio is removed; a missing audio file turns any outcome into `FileNotFoundError`; otherwise the URL or a `DaciteError` |
| ApiMain.ProcessAudio | api/main.py:154-203 | with the removal guarded: same files, outcome the URL or the stage's `DaciteError` |
| ApiMain.TitleSlugHasNoSlash | api/main.py:134 | the slug read from a path holds no `/` |
| ApiMain.AudioPathAbsolute | api/main.py:159-162 | the raw audio path is absolute |
| ApiMain.AudioNotTranscript | api/main.py:162-165 | the raw audio path differs from the transcript path, for any slug |
| ApiMain.ApiPathsDistinct | api/main.py:159-165 | the audio path is neither the JSON path nor the PDF path |
| ApiMain.AudioMissingAtCleanup | api/main.py:198-200 | `os.remove` meets no file exactly when the audio was absent and the try block failed before or at the source stage |
| ApiMain.DownloadFailureMasked | api/main.py:170-200 | a failed model download with no cached audio ends in `FileNotFoundError`, hiding the `DaciteError` |
| ApiMain.CleanupKeepsOutputs | api/main.py:198-201 | after cleanup the audio is gone, the JSON and the PDF stay when written, and other files are untouched |
| WhisperMain.OrDefaultSpec | whisper_api/main.py:149 | `x if x else default` keeps a non-empty value and otherwise gives the default |
| WhisperMain.WhisperFront | whisper_api/main.py:92-126 | the stages up to transcription fail at `FrontFailure`; only the raw audio is created; on success the audio URL and the transcript |
| WhisperMain.WhisperBack | whisper_api/main.py:134-149 | the JSON, PDF, upload and upsert stages: failure, files created, `pdf_path` binding and the upserted row |
| WhisperMain.WhisperTry | whisper_api/main.py:89-149 | the corrected try block fails at `WhisperFailure`, creates `WhisperCreated`, binds `pdf_path` exactly when the PDF is rendered, upserts `UpsertedRecord` |
| WhisperMain.ProcessAudio | whisper_api/main.py:80-172 | with the defects at whisper_api/main.py:112 and 169 and whisper_api/audio.py:131 corrected: outcome returned or the stage's `DaciteError`; audio and JSON removed, the PDF removed when rendered; row upserted |
| WhisperMain.FrontIsFirst | whisper_api/main.py:89-127 | the first seven stages fail at `FrontFailure`, or the remaining stages decide |
| WhisperMain.WhisperFailureIsFirst | whisper_api/main.py:89-153 | the corrected try block stops at the first failing stage of `WhisperStages` |
| WhisperMain.WhisperCreatedByStage | whisper_api/main.py:106-139 | each file exists exactly when its stage passed; `pdf_path` is bound exactly when rendering passed; the upsert is reached exactly when the PDF upload passed |
| WhisperMain.WhisperOutcomeReportsFailure | whisper_api/main.py:151-153 | a run returns exactly when no stage fails, and otherwise raises `DaciteError` chained to the stage |
| WhisperMain.UpsertedRecordContents | whisper_api/main.py:149 | the row carries the id; the title, or the slug when the title is missing or empty; the presenters as given, or `"Unknown"` when missing or empty; the public URLs of the uploaded audio and PDF; and the chunk texts in order |
| WhisperMain.SuccessLeavesNothing | whisper_api/main.py:155-172 | after a successful corrected run none of the job's three files remains |
| WhisperMain.CleanupRemovesJobFiles | whisper_api/main.py:155-172 | corrected cleanup: no audio or JSON left, an old PDF survives only if none was rendered, other files untouched |
| WhisperMain.WhisperPathsDistinct | whisper_api/main.py:85-87 | the job's audio, JSON and PDF paths are three different paths |
| WhisperMain.WhisperTryAsWritten | whisper_api/main.py:89-112 | as written the try block always raises `TryErrorAsWritten`; only the raw audio is created, exactly when the set-up stages pass |
| WhisperMain.TryErrorAsWritten | whisper_api/main.py:89-112 | the error of the first failing set-up stage, or else `UnboundLocalError` for `credentials` |
| WhisperMain.ProcessAudioAsWritten | whisper_api/main.py:80-172 | as written every call raises `UnboundLocalError` for `pdf_path`, after removing the audio and the JSON |
| WhisperMain.CredentialsDefectWitness | whisper_api/main.py:112-149 | when every service succeeds, the corrected order (credentials first, `float` called positionally) passes all stages and reaches the upsert, while the try block as written raises `UnboundLocalError` for `credentials` |
| WhisperMain.DurationAsWritten | whisper_api/audio.py:128-131 | as written the duration read raises whatever the probe answers: the split stage always fails, no transcript exists, every other stage is unaffected |
| WhisperMain.DurationDefectWitness | whisper_api/audio.py:131 | with the credentials fixed but `float(__x=...)` as written, every job raises `DaciteError`, renders no PDF, creates at most the raw audio and upserts nothing; past the set-up, credentials and audio upload it fails exactly at the split |

Helpers without a row:
- sequence facts: `Paths.AppendDistinct`, `Paths.PrependDistinct`, `Silence.SubSlice`, `Silence.SliceSplit`, `Silence.OccursAtLayout`, `Silence.AppendOne` and `Silence.AppendNone`;
- `Silence.Pow10`;
- one-step unfoldings of a definition: `Silence.ScanStops`, `Silence.ScanSkips` and `Silence.ScanSplits` (the loop proof), `Stages.Unroll` (the stage walk), `ApiMain.ApiOutcomeReportsFailure` (`ApiOutcome`), `WhisperMain.DurationAsWrittenIsFailedSplit` (`DurationAsWritten`);
- concrete instances: `Silence.ShortRecordingYieldsNothing` of `Silence.NoSplitsWholeFile`, `Silence.OneReportTailDropped` of `Silence.TailDroppedAfterLastSplit`.

Definitions, which have no contract of their own and which the members above state properties of:
- `Numerals.ParseInt`, `DigitsValue`, `DigitValue`, `IsDigit`, `AllDigits`: the reading back of decimal text, the reference for `str(int)` at whisper_api/main.py:82.
- `Paths.JoinPath`: `pathlib`'s `/` (api/main.py:159, whisper_api/main.py:85).
- `Paths.Basename`, `Paths.StripExtension`, `Paths.TitleSlugOf`: `os.path.basename(...).rsplit('.', 1)[0]` (api/main.py:134).
- `Paths.AudioFilePath`: the raw audio path, with `.mp3` for a video (api/main.py:159-162, whisper_api/main.py:85-86).
- `Paths.TranscriptPath`: `get_transcript_path` (api/main.py:206-207, whisper_api/main.py:87).
- `Paths.PdfPath`: `f"{title_slug}.pdf"` (whisper_api/pdf.py:22).
- `Paths.JobFiles`: the three paths of a job (whisper_api/main.py:85-87).
- `Coalesce.CombineSegments`: `_combine_segments` (whisper_api/audio.py:109-114).
- `Coalesce.CoalesceFrom`, `Coalesce.Coalesced`: `coalesce_short_transcript_segments` (whisper_api/audio.py:92-105).
- `Coalesce.JoinTexts`: the texts joined with spaces, the reference for `CombineSegments`' text (whisper_api/audio.py:111).
- `Silence.IsNumeral`, `Silence.OccursAt`: the regex `silence_end_re` (whisper_api/audio.py:123-125).
- `Silence.SilenceSplit`, `Silence.SplitPoint`: `split_at` of a matching line (whisper_api/audio.py:148-151).
- `Silence.Scan`, `Silence.ReadLine`: the `while True` loop over `readline` (whisper_api/audio.py:142-158).
- `Silence.TrailingAccepted`, `Silence.SplitSilences`: the trailing-chunk guard and the whole generator (whisper_api/audio.py:118-165).
- `Silence.Contiguous`, `Silence.AtLeast`, `Silence.CoveredUntil`: properties of a chunk list (whisper_api/audio.py:153-165).
- `Transcribe.Shifted`, `Transcribe.ShiftAll`, `Transcribe.WithOffsets`: adding back the offsets (whisper_api/transcribe.py:44-47, api/main.py:95-97).
- `Aggregate.Transcribed`, `Aggregate.TranscribeEach`: `starmap` over the chunks (api/main.py:117-119).
- `Aggregate.ConcatTexts`, `Aggregate.ConcatSegments`, `Aggregate.Aggregated`, `Aggregate.TranscribeChunks`: the accumulation and the result dict (api/main.py:113-127).
- `Aggregate.TotalSegments`: the sum of the per-chunk segment counts.
- `Stages.StageOk`, `Stages.SetUpFailure`, `Stages.Completed`, `Stages.Passed`, `Stages.JobEnv`, `Stages.Clips`: what each stage answers, and the set-up stages both pipelines share (whisper_api/main.py:92-109, api/main.py:169-183).
- `ApiMain.ApiStages`, `ApiMain.ApiPaths`, `ApiMain.ApiEnv`, `ApiMain.ApiFailure`, `ApiMain.ApiCreated`, `ApiMain.ApiOutcome`: the stages, files and outcome of `api/main.py`'s `process_audio` (api/main.py:154-203).
- `WhisperMain.WhisperStages`, `WhisperMain.WhisperPaths`, `WhisperMain.WhisperEnv`, `WhisperMain.FrontFailure`, `WhisperMain.WhisperFailure`, `WhisperMain.PdfRendered`, `WhisperMain.ReachesUpsert`, `WhisperMain.WhisperCreated`, `WhisperMain.WhisperOutcome`: the stages, files and outcome of the corrected try block (whisper_api/main.py:82-153).
- `WhisperMain.OrDefault`, `WhisperMain.UpsertedRecord`: the `x if x else default` arguments and the row of `supabase_upsert` (whisper_api/main.py:149).

## Left out

- External tools are parameters of `Stages.Services`, not modelled: ffmpeg (probe, conversion, trimming, `silencedetect`), the Whisper model, yt-dlp, urllib, Google Cloud Storage, Supabase, fpdf and `os.environ`.
- File contents are not tracked, only which paths exist. Directories are not tracked either, so `mkdir` is only a stage that succeeds or fails.
- A failing write is assumed to leave no file behind, and a file-writing stage creates its file exactly when it succeeds.
- Floating-point arithmetic is modelled as exact `real` arithmetic: `split_at`, the offsets and the comparisons with the minimum length.
- `pathlib` normalisation (repeated or trailing `/`, `.` and `..` components) is not modelled. `JoinPath` covers an empty name, an absolute name and a plain join.
- `starmap` runs in parallel and lazily. The model is an ordered, eager map whose first failing chunk fails the whole job, which is what the loop observes.
- Logging and `format_file_size` (whisper_api/audio.py:48-54) are left out. They affect neither results nor files.
- The HTTP layers in api/api.py and whisper_api/api.py, and the Modal decorators and secrets, are not part of this model.
- video.py is not part of this model. The video download and conversion is the `acquire` service. The converter writes `destination.mp3`, the path both pipelines then use.
- whisper_api/transcribe.py:11-20 uses `stub`, `app_image`, `volume` and `pathlib`, none of which is defined or imported there, so the module fails at import. The model describes what the function body would do.
- `store_original_audio`'s `overwrite` flag is not modelled. No caller passes it, so the file-exists early return always applies.
- `coalesce_short_transcript_segments` is called by neither pipeline. It is modelled on its own.
- Coalesce.CoalesceShortTranscriptSegments: `if previous:` is always true for a segment dict, so the model appends the pending segment exactly when there was at least one input.
- ApiMain.ProcessAudioAsWritten: a `DaciteError` replaced by `FileNotFoundError` is modelled as the later exception only. The `__context__` chain is not modelled.
- WhisperMain.ProcessAudioAsWritten: likewise, only the `UnboundLocalError` raised in `finally` is modelled, not the exception it replaces.
- Stages.Services: the `credentials` flag stands for both the environment lookup and the parsing (whisper_api/main.py:142-143 and api/main.py:140-141). Both raise and are not told apart.
- WhisperMain.WhisperFront, WhisperMain.WhisperTry, WhisperMain.ProcessAudio, WhisperMain.CredentialsDefectWitness: these model the pipeline with both corrections, the credentials loaded before the audio upload (whisper_api/main.py:112) and the duration read as `float(...)` with a positional argument (whisper_api/audio.py:131). With only the first one, every job stops at the split (`WhisperMain.DurationDefectWitness`).
- WhisperMain: as shipped, whisper_api/main.py cannot be imported. whisper_api/gcloud.py:4 closes `os.environ[` with `)`, a syntax error, and whisper_api/transcribe.py fails at import as noted above. Every `WhisperMain` member models the body of `process_audio` as if both modules loaded.
- Steps.SplitAndTranscribe, ApiMain.ProcessAudio: api/main.py:10 imports its own api/audio.py, which is not part of this model. The `api` pipeline is given whisper_api/audio.py's `split_silences` (`Silence.SplitSilences`), whose trailing-chunk check may differ from the one the `api` package uses.
- Steps.AcquireAudio, ApiMain.ApiTry, ApiMain.ProcessAudio, ApiMain.ProcessAudioAsWritten, ApiMain.ApiCreatedByStage, ApiMain.AudioMissingAtCleanup, ApiMain.DownloadFailureMasked: api/main.py:180 calls `store_original_audio` from that same api/audio.py. The `api` pipeline is given whisper_api/audio.py:58-79's behaviour: a non-video source whose file already exists is skipped, and the raw audio file appears exactly when the source stage succeeds. If api/audio.py downloads unconditionally, or can leave a partial file when the download fails, then which files exist at the `finally` (api/main.py:200), and with them these members' statements about `FileNotFoundError`, may differ.
- ApiMain.ApiCreated, ApiMain.ApiBack, ApiMain.ApiCreatedByStage, ApiMain.CleanupKeepsOutputs: one file system stands for both Modal containers. `transcribe_audio` runs in its own container through `.call`, and it writes the PDF at the relative path `{slug}.pdf` (api/main.py:137), outside the `/cache` volume the two share. As deployed, that PDF is not among `process_audio`'s files, yet the model counts it there. The JSON and the raw audio do lie on the shared volume.

## Findings

| source | as written | input that shows it | evidently intended | confidence | as-written member | corrected member |
|---|---|---|---|---|---|---|
| whisper_api/main.py:112 | `credentials` is used by the audio upload, but assigned only at line 143 later in the same function, so it is an unbound local | any job whose model download, directories and source download succeed | load the credentials before the first upload | high (not executed) | WhisperMain.WhisperTryAsWritten, WhisperMain.CredentialsDefectWitness | WhisperMain.WhisperTry |
| whisper_api/main.py:169 | `finally` reads `pdf_path`, which is bound only at line 139, so every run that fails before the PDF raises `UnboundLocalError`; with the first finding, that is every run | any call of `process_audio` | bind `pdf_path = None` before the `try` | high (not executed) | WhisperMain.ProcessAudioAsWritten | WhisperMain.ProcessAudio |
| api/main.py:200 | `os.remove(audio_filepath)` in `finally` is unconditional, so when the audio was never stored it raises `FileNotFoundError` and hides the `DaciteError` | a non-video job with no cached audio whose model download fails | remove the audio only if it exists | high (not executed) | ApiMain.ProcessAudioAsWritten, ApiMain.DownloadFailureMasked | ApiMain.ProcessAudio |
| whisper_api/audio.py:131 | `float(__x=metadata["format"]["duration"])` passes its argument by keyword, which `float` rejects with `TypeError`, so `split_silences` raises as soon as the starmap at whisper_api/main.py:122-124 reads it, whatever the probe returned; the defect at line 112 hides this one | a job whose services all succeed, run with the credentials fix | `float(metadata["format"]["duration"])` | high (not executed) | WhisperMain.DurationAsWritten, WhisperMain.DurationDefectWitness | WhisperMain.CredentialsDefectWitness, WhisperMain.ProcessAudio |
