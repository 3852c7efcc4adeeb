/** The current pipeline (whisper_api/main.py): `process_audio` derives the job's
    files from its unique id, runs the stages in order inside a try block,
    re-raises any failure as `DaciteError`, and deletes the job's local files
    in `finally`. */
module WhisperMain {
  import opened Common
  import opened Numerals
  import opened Paths
  import opened Files
  import opened Stages
  import opened Steps
  import opened Aggregate

  /** The stages in the order the corrected try block runs them: the
      credentials are loaded before the first upload that needs them. */
  const WhisperStages: seq<Stage> :=
    [ModelDownload, MakeDirs, Acquire, LoadCredentials, UploadAudio, Split, Transcribe,
     WriteJson, RenderPdf, UploadPdf, Upsert]

  /** The job's files, all named after `str(unique_id)`. */
  function WhisperPaths(uniqueId: int, isVideo: bool): JobPaths
  {
    var slug := SlugOfId(uniqueId);
    JobPaths(AudioFilePath(slug, isVideo), TranscriptPath(slug), PdfPath(slug))
  }

  function WhisperEnv(svc: Services, uniqueId: int, isVideo: bool, files: set<string>): Env
  {
    JobEnv(svc, isVideo, WhisperPaths(uniqueId, isVideo).audio in files)
  }

  /** The row handed to `supabase_upsert`. */
  datatype Record = Record(
    id: int,
    sessionName: string,
    presenters: string,
    transcript: string,
    audioFilePath: string,
    transcriptFilePath: string)

  /** `value if value else default` for an optional string: `None` and the
      empty string both give the default. */
  function OrDefault(value: Option<string>, default: string): (r: string)
  {
    if value.Some? && value.value != "" then value.value else default
  }

  /** `OrDefault` keeps a non-empty value and otherwise gives the default. */
  lemma OrDefaultSpec(value: Option<string>, default: string)
    ensures value.Some? && value.value != "" ==> OrDefault(value, default) == value.value
    ensures value.None? || value.value == "" ==> OrDefault(value, default) == default
    ensures default != "" ==> OrDefault(value, default) != ""
  {
  }

  // ---------------------------------------------------------------------
  // The corrected pipeline: the credentials are loaded before the audio
  // upload, `pdf_path` is bound before the try block, and `split_silences`
  // reads the duration with `float` called positionally.

  /** The stage at which the front of the corrected try block stops: up to
      and including the transcription of every chunk. */
  function FrontFailure(env: Env): Option<Stage>
  {
    if SetUpFailure(env).Some? then SetUpFailure(env)
    else if !StageOk(env, LoadCredentials) then Some(LoadCredentials)
    else if !StageOk(env, UploadAudio) then Some(UploadAudio)
    else if !StageOk(env, Split) then Some(Split)
    else if !StageOk(env, Transcribe) then Some(Transcribe)
    else None
  }

  /** The stage at which the corrected try block stops. */
  function WhisperFailure(env: Env): Option<Stage>
  {
    if FrontFailure(env).Some? then FrontFailure(env)
    else if !StageOk(env, WriteJson) then Some(WriteJson)
    else if !StageOk(env, RenderPdf) then Some(RenderPdf)
    else if !StageOk(env, UploadPdf) then Some(UploadPdf)
    else if !StageOk(env, Upsert) then Some(Upsert)
    else None
  }

  /** Whether `pdf_path` gets bound: the PDF is rendered. */
  predicate PdfRendered(env: Env)
  {
    FrontFailure(env).None? && StageOk(env, WriteJson) && StageOk(env, RenderPdf)
  }

  /** Whether the upsert is reached: every stage before it passes. */
  predicate ReachesUpsert(env: Env)
  {
    PdfRendered(env) && StageOk(env, UploadPdf)
  }

  /** The local files the corrected try block creates. */
  function WhisperCreated(env: Env, paths: JobPaths): set<string>
  {
    if SetUpFailure(env).Some? then {}
    else if FrontFailure(env).Some? || !StageOk(env, WriteJson) then {paths.audio}
    else if !StageOk(env, RenderPdf) then {paths.audio, paths.transcript}
    else {paths.audio, paths.transcript, paths.pdf}
  }

  /** The row upserted once every earlier stage has passed: the session name
      is the title, or the slug when there is none; the presenters default to
      `"Unknown"`; the transcript is the aggregated text; the two paths are
      the public URLs of the uploads. */
  function UpsertedRecord(env: Env, uniqueId: int, sessionTitle: Option<string>, presenters: Option<string>)
    : Option<Record>
  {
    if ReachesUpsert(env) then
      Some(Record(uniqueId, OrDefault(sessionTitle, SlugOfId(uniqueId)), OrDefault(presenters, "Unknown"),
        env.transcript.value.text, env.svc.audioUpload.value, env.svc.pdfUpload.value))
    else None
  }

  /** The front of the corrected try block: the model, the directories, the
      source, the credentials, the audio upload, the split and the
      transcription. */
  method WhisperFront(fs: FileSystem, env: Env, paths: JobPaths)
    returns (failed: Option<Stage>, publicAudioUrl: string, job: JobResult)
    requires env == JobEnv(env.svc, env.isVideo, paths.audio in fs.files)
    modifies fs
    ensures failed == FrontFailure(env)
    ensures fs.files == old(fs.files) + (if SetUpFailure(env).None? then {paths.audio} else {})
    ensures failed.None? ==>
      SetUpFailure(env).None? && env.svc.audioUpload == Some(publicAudioUrl) && env.transcript == Some(job)
  {
    var svc := env.svc;
    publicAudioUrl, job := "", JobResult("", [], JobLanguage);
    failed := SetUpJob(fs, env, paths);
    if failed.Some? {
      return;
    }
    if !svc.credentials {
      return Some(LoadCredentials), publicAudioUrl, job;
    }
    if svc.audioUpload.None? {
      return Some(UploadAudio), publicAudioUrl, job;
    }
    publicAudioUrl := svc.audioUpload.value;
    failed, job := SplitAndTranscribe(svc);
  }

  /** The back of the corrected try block, once the front has passed: the
      JSON, the PDF, its upload and the upsert. */
  method WhisperBack(fs: FileSystem, env: Env, paths: JobPaths, uniqueId: int,
                     sessionTitle: Option<string>, presenters: Option<string>,
                     publicAudioUrl: string, job: JobResult)
    returns (failed: Option<Stage>, pdfBound: bool, upserted: Option<Record>)
    requires FrontFailure(env).None?
    requires env.svc.audioUpload == Some(publicAudioUrl) && env.transcript == Some(job)
    modifies fs
    ensures failed == WhisperFailure(env)
    ensures fs.files == old(fs.files) +
      if !StageOk(env, WriteJson) then {} else if !StageOk(env, RenderPdf) then {paths.transcript}
      else {paths.transcript, paths.pdf}
    ensures pdfBound == PdfRendered(env)
    ensures upserted == UpsertedRecord(env, uniqueId, sessionTitle, presenters)
  {
    var svc := env.svc;
    pdfBound, upserted := false, None;
    if !svc.jsonWrite {
      return Some(WriteJson), pdfBound, upserted;
    }
    fs.Write(paths.transcript);
    if !svc.pdfRender {
      return Some(RenderPdf), pdfBound, upserted;
    }
    fs.Write(paths.pdf);
    pdfBound := true;
    if svc.pdfUpload.None? {
      return Some(UploadPdf), pdfBound, upserted;
    }
    var publicPdfUrl := svc.pdfUpload.value;
    var slug := SlugOfId(uniqueId);
    upserted := Some(Record(uniqueId, OrDefault(sessionTitle, slug), OrDefault(presenters, "Unknown"),
      job.text, publicAudioUrl, publicPdfUrl));
    if !svc.upsert {
      return Some(Upsert), pdfBound, upserted;
    }
    failed := None;
  }

  /** The try block of the corrected `process_audio`. */
  method WhisperTry(fs: FileSystem, env: Env, paths: JobPaths, uniqueId: int,
                    sessionTitle: Option<string>, presenters: Option<string>)
    returns (failed: Option<Stage>, pdfBound: bool, upserted: Option<Record>)
    requires env == JobEnv(env.svc, env.isVideo, paths.audio in fs.files)
    modifies fs
    ensures failed == WhisperFailure(env)
    ensures fs.files == old(fs.files) + WhisperCreated(env, paths)
    ensures pdfBound == PdfRendered(env)
    ensures upserted == UpsertedRecord(env, uniqueId, sessionTitle, presenters)
  {
    var f, publicAudioUrl, job := WhisperFront(fs, env, paths);
    if f.Some? {
      return f, false, None;
    }
    failed, pdfBound, upserted := WhisperBack(fs, env, paths, uniqueId, sessionTitle, presenters, publicAudioUrl, job);
  }

  /** How the corrected `process_audio` ends: it returns `None`, or raises
      `DaciteError` chained to the stage that failed. */
  function WhisperOutcome(failed: Option<Stage>): Outcome<()>
  {
    match failed
    case None => Returned(())
    case Some(stage) => Raised(DaciteError(StageError(stage)))
  }

  /** `process_audio` with `credentials` loaded before the audio upload and
      `pdf_path = None` bound before the try block. The `finally` block
      removes the audio and the JSON when they exist, and the PDF when it was
      rendered and exists. */
  method ProcessAudio(fs: FileSystem, svc: Services, uniqueId: int, sessionTitle: Option<string>,
                      presenters: Option<string>, isVideo: bool)
    returns (outcome: Outcome<()>, upserted: Option<Record>)
    modifies fs
    ensures var env := WhisperEnv(svc, uniqueId, isVideo, old(fs.files));
      outcome == WhisperOutcome(WhisperFailure(env))
    ensures var env, paths := WhisperEnv(svc, uniqueId, isVideo, old(fs.files)), WhisperPaths(uniqueId, isVideo);
      fs.files == (old(fs.files) + WhisperCreated(env, paths)) - {paths.audio} - {paths.transcript}
        - (if PdfRendered(env) then {paths.pdf} else {})
    ensures upserted == UpsertedRecord(WhisperEnv(svc, uniqueId, isVideo, old(fs.files)), uniqueId, sessionTitle, presenters)
  {
    var paths := WhisperPaths(uniqueId, isVideo);
    var env := JobEnv(svc, isVideo, paths.audio in fs.files);
    var pdfPath: Option<string> := None;
    var failed, pdfBound, record := WhisperTry(fs, env, paths, uniqueId, sessionTitle, presenters);
    if pdfBound {
      pdfPath := Some(paths.pdf);
    }
    fs.RemoveIfExists(paths.audio);
    fs.RemoveIfExists(paths.transcript);
    if pdfPath.Some? {
      fs.RemoveIfExists(pdfPath.value);
    }
    outcome, upserted := WhisperOutcome(failed), record;
  }

  /** The front of the try block stops at the first of the first seven
      stages that fails, and otherwise the rest runs. */
  lemma FrontIsFirst(env: Env)
    ensures FirstFailure(WhisperStages, env) ==
      if FrontFailure(env).Some? then FrontFailure(env) else FirstFailure(WhisperStages[7..], env)
  {
    var s := WhisperStages;
    var s1 := s[1..];
    assert s1 == [MakeDirs, Acquire, LoadCredentials, UploadAudio, Split, Transcribe,
      WriteJson, RenderPdf, UploadPdf, Upsert];
    var s2 := s1[1..];
    assert s2 == [Acquire, LoadCredentials, UploadAudio, Split, Transcribe, WriteJson, RenderPdf, UploadPdf, Upsert];
    var s3 := s2[1..];
    assert s3 == [LoadCredentials, UploadAudio, Split, Transcribe, WriteJson, RenderPdf, UploadPdf, Upsert];
    var s4 := s3[1..];
    assert s4 == [UploadAudio, Split, Transcribe, WriteJson, RenderPdf, UploadPdf, Upsert];
    var s5 := s4[1..];
    assert s5 == [Split, Transcribe, WriteJson, RenderPdf, UploadPdf, Upsert];
    var s6 := s5[1..];
    assert s6 == [Transcribe, WriteJson, RenderPdf, UploadPdf, Upsert];
    assert s6[1..] == s[7..];
    Unroll(s, env);
    Unroll(s1, env);
    Unroll(s2, env);
    Unroll(s3, env);
    Unroll(s4, env);
    Unroll(s5, env);
    Unroll(s6, env);
  }

  /** The corrected try block stops at the first stage of `WhisperStages` that fails. */
  lemma WhisperFailureIsFirst(env: Env)
    ensures WhisperFailure(env) == FirstFailure(WhisperStages, env)
  {
    FrontIsFirst(env);
    var t := WhisperStages[7..];
    assert t == [WriteJson, RenderPdf, UploadPdf, Upsert];
    var t1 := t[1..];
    assert t1 == [RenderPdf, UploadPdf, Upsert];
    var t2 := t1[1..];
    assert t2 == [UploadPdf, Upsert];
    var t3 := t2[1..];
    assert t3 == [Upsert];
    assert t3[1..] == [];
    Unroll(t, env);
    Unroll(t1, env);
    Unroll(t2, env);
    Unroll(t3, env);
  }

  /** Each file is created exactly when the stage that writes it passes:
      `Acquire` at index 2, `WriteJson` at 7 and `RenderPdf` at 8; `pdf_path`
      is bound exactly when `RenderPdf` passes, and the upsert is reached
      exactly when `UploadPdf` (index 9) passes. */
  lemma WhisperCreatedByStage(env: Env, paths: JobPaths)
    ensures WhisperStages[2] == Acquire && WhisperStages[7] == WriteJson && WhisperStages[8] == RenderPdf
    ensures WhisperCreated(env, paths) ==
      (if Passed(WhisperStages, env, 2) then {paths.audio} else {}) +
      (if Passed(WhisperStages, env, 7) then {paths.transcript} else {}) +
      (if Passed(WhisperStages, env, 8) then {paths.pdf} else {})
    ensures PdfRendered(env) <==> Passed(WhisperStages, env, 8)
    ensures ReachesUpsert(env) <==> Passed(WhisperStages, env, 9)
  {
    var s := WhisperStages;
    assert s[0] == ModelDownload && s[1] == MakeDirs && s[2] == Acquire && s[3] == LoadCredentials;
    assert s[4] == UploadAudio && s[5] == Split && s[6] == Transcribe && s[7] == WriteJson;
    assert s[8] == RenderPdf && s[9] == UploadPdf;
  }

  /** A job that passes every stage returns normally; one that fails raises
      `DaciteError` chained to the failing stage. */
  lemma WhisperOutcomeReportsFailure(env: Env)
    ensures WhisperOutcome(WhisperFailure(env)).Returned? <==> WhisperFailure(env).None?
    ensures WhisperFailure(env).Some? ==>
      WhisperOutcome(WhisperFailure(env)) == Raised(DaciteError(StageError(WhisperFailure(env).value)))
  {
  }

  /** What the upserted row holds: the title (or the slug when the title is
      missing or empty), the presenters (or `"Unknown"` when missing or empty),
      the public URLs of the uploaded audio and PDF, and the texts of the
      chunks concatenated in chunk order. */
  lemma UpsertedRecordContents(svc: Services, uniqueId: int, isVideo: bool, files: set<string>,
                               sessionTitle: Option<string>, presenters: Option<string>)
    ensures var env := WhisperEnv(svc, uniqueId, isVideo, files);
      var r := UpsertedRecord(env, uniqueId, sessionTitle, presenters);
      (r.Some? <==> ReachesUpsert(env)) &&
      (r.Some? ==>
        svc.probe.Some? && TranscribeEach(Clips(svc), svc.model).Some? &&
        r.value.id == uniqueId && r.value.sessionName != "" && r.value.presenters != "" &&
        (sessionTitle.Some? && sessionTitle.value != "" ==> r.value.sessionName == sessionTitle.value) &&
        ((sessionTitle.None? || sessionTitle.value == "") ==> r.value.sessionName == SlugOfId(uniqueId)) &&
        (presenters.Some? && presenters.value != "" ==> r.value.presenters == presenters.value) &&
        ((presenters.None? || presenters.value == "") ==> r.value.presenters == "Unknown") &&
        svc.audioUpload.Some? && svc.pdfUpload.Some? &&
        r.value.audioFilePath == svc.audioUpload.value && r.value.transcriptFilePath == svc.pdfUpload.value &&
        r.value.transcript == ConcatTexts(TranscribeEach(Clips(svc), svc.model).value))
  {
    var env := WhisperEnv(svc, uniqueId, isVideo, files);
    OrDefaultSpec(sessionTitle, SlugOfId(uniqueId));
    OrDefaultSpec(presenters, "Unknown");
    if ReachesUpsert(env) {
      assert svc.probe.Some? && env.transcript == TranscribeChunks(Clips(svc), svc.model);
      assert env.transcript.value.text == ConcatTexts(TranscribeEach(Clips(svc), svc.model).value);
    }
  }

  /** After a job that passes every stage, none of its three files is left on
      disk, and no other file has changed. */
  lemma SuccessLeavesNothing(svc: Services, uniqueId: int, isVideo: bool, files: set<string>)
    requires WhisperFailure(WhisperEnv(svc, uniqueId, isVideo, files)).None?
    ensures var env, paths := WhisperEnv(svc, uniqueId, isVideo, files), WhisperPaths(uniqueId, isVideo);
      (files + WhisperCreated(env, paths)) - {paths.audio} - {paths.transcript}
        - (if PdfRendered(env) then {paths.pdf} else {})
      == files - {paths.audio, paths.transcript, paths.pdf}
  {
  }

  /** Whatever the outcome, the corrected job leaves no raw audio and no JSON
      behind, a pre-existing PDF survives only when this job did not render
      one, and files outside the job are untouched. */
  lemma CleanupRemovesJobFiles(svc: Services, uniqueId: int, isVideo: bool, files: set<string>)
    ensures var env, paths := WhisperEnv(svc, uniqueId, isVideo, files), WhisperPaths(uniqueId, isVideo);
      var after := (files + WhisperCreated(env, paths)) - {paths.audio} - {paths.transcript}
        - (if PdfRendered(env) then {paths.pdf} else {});
      paths.audio !in after && paths.transcript !in after &&
      (paths.pdf in after <==> paths.pdf in files && !PdfRendered(env)) &&
      (forall p :: p !in JobFiles(SlugOfId(uniqueId), isVideo) ==> (p in after <==> p in files))
  {
    WhisperPathsDistinct(uniqueId, isVideo);
  }

  /** The three files of a job are three different paths. */
  lemma WhisperPathsDistinct(uniqueId: int, isVideo: bool)
    ensures var p := WhisperPaths(uniqueId, isVideo);
      p.audio != p.transcript && p.audio != p.pdf && p.transcript != p.pdf
  {
    var slug := SlugOfId(uniqueId);
    KindsDistinct(slug, slug, isVideo);
  }


  // ---------------------------------------------------------------------
  // The pipeline as written

  /** The error the try block as written raises: the first failing set-up
      stage's, or `UnboundLocalError` for `credentials` once all three pass. */
  function TryErrorAsWritten(env: Env): (exc: Exc)
    ensures exc.UnboundLocalError? <==> SetUpFailure(env).None?
    ensures exc.UnboundLocalError? ==> exc.name == "credentials"
    ensures exc.StageError? ==> Some(exc.stage) == SetUpFailure(env)
    ensures exc.StageError? || exc.UnboundLocalError?
  {
    if SetUpFailure(env).Some? then StageError(SetUpFailure(env).value) else UnboundLocalError("credentials")
  }

  /** The try block as written: after the first three stages, line 112
      passes `credentials` to the audio upload before line 143 assigns it, so
      the block always raises; `UnboundLocalError` when the first three
      stages pass, the failing stage's error otherwise. */
  method WhisperTryAsWritten(fs: FileSystem, env: Env, paths: JobPaths) returns (exc: Exc)
    requires env == JobEnv(env.svc, env.isVideo, paths.audio in fs.files)
    modifies fs
    ensures exc == TryErrorAsWritten(env)
    ensures fs.files == old(fs.files) + (if SetUpFailure(env).None? then {paths.audio} else {})
  {
    var failed := SetUpJob(fs, env, paths);
    if failed.Some? {
      return StageError(failed.value);
    }
    exc := UnboundLocalError("credentials");
  }

  /** `process_audio` as written: the except clause wraps the try block's
      error in `DaciteError`, then `finally` removes the audio and the JSON
      and reads `pdf_path`, which line 139 never bound, so the
      `UnboundLocalError` it raises replaces the `DaciteError`. Every call
      ends that way, and nothing is transcribed or upserted. */
  method ProcessAudioAsWritten(fs: FileSystem, svc: Services, uniqueId: int, isVideo: bool)
    returns (outcome: Outcome<()>)
    modifies fs
    ensures outcome == Raised(UnboundLocalError("pdf_path"))
    ensures var env, paths := WhisperEnv(svc, uniqueId, isVideo, old(fs.files)), WhisperPaths(uniqueId, isVideo);
      fs.files == (old(fs.files) + (if SetUpFailure(env).None? then {paths.audio} else {})) - {paths.audio} - {paths.transcript}
  {
    var paths := WhisperPaths(uniqueId, isVideo);
    var env := JobEnv(svc, isVideo, paths.audio in fs.files);
    var pdfPath: Option<string> := None;  // unbound: line 139 is never reached
    var exc := WhisperTryAsWritten(fs, env, paths);
    var pending := DaciteError(exc);
    fs.RemoveIfExists(paths.audio);
    fs.RemoveIfExists(paths.transcript);
    if pdfPath.None? {
      return Raised(UnboundLocalError("pdf_path"));
    }
    outcome := Raised(pending);
  }

  /** The jobs that show the defect at line 112: whenever every service
      succeeds (and the model transcribes any clip), the corrected order
      passes every stage and upserts the row, while as written the first three
      stages pass, so the try block raises `UnboundLocalError` for
      `credentials`. Such jobs exist for every source kind. */
  lemma CredentialsDefectWitness(svc: Services, isVideo: bool, audioPresent: bool)
    requires svc.modelDownload && svc.makeDirs && svc.acquire && svc.credentials
    requires svc.audioUpload.Some? && svc.probe.Some? && svc.jsonWrite && svc.pdfRender
    requires svc.pdfUpload.Some? && svc.upsert
    requires forall clip :: svc.model(clip).Some?
    ensures var env := JobEnv(svc, isVideo, audioPresent);
      SetUpFailure(env).None? && WhisperFailure(env).None? && ReachesUpsert(env)
    ensures TryErrorAsWritten(JobEnv(svc, isVideo, audioPresent)) == UnboundLocalError("credentials")
  {
    TranscribeEachSpec(Clips(svc), svc.model);
  }

  // ---------------------------------------------------------------------
  // The duration read of `split_silences` as written

  /** The job as whisper_api/audio.py:131 is written. `float(__x=...)` passes
      the duration by keyword, and `float` takes its argument only by
      position, so the call raises `TypeError` even when `ffmpeg.probe`
      returns. The generator raises when the starmap first reads it, inside
      the try block, so the split stage raises whatever the probe answers,
      and no chunk is transcribed. The other stages are unaffected. */
  function DurationAsWritten(env: Env): (w: Env)
    ensures !StageOk(w, Split) && w.transcript.None?
    ensures forall stage :: stage != Split && stage != Transcribe ==> (StageOk(w, stage) <==> StageOk(env, stage))
  {
    Env(env.svc.(probe := None), env.isVideo, env.audioPresent, None)
  }

  /** The run as written at whisper_api/audio.py:131 is the run whose probe
      fails: both raise at the split stage. */
  lemma DurationAsWrittenIsFailedSplit(svc: Services, isVideo: bool, audioPresent: bool)
    ensures DurationAsWritten(JobEnv(svc, isVideo, audioPresent)) == JobEnv(svc.(probe := None), isVideo, audioPresent)
  {
  }

  /** The defect at whisper_api/audio.py:131: even with the credentials loaded
      before the audio upload, the try block never passes the split. Every
      job raises `DaciteError`, renders no PDF, creates no file but the raw
      audio and upserts nothing; one whose set-up, credentials and audio
      upload succeed fails exactly at the split. With every service
      succeeding, the same job with `float` called positionally reaches the
      upsert (`CredentialsDefectWitness`). */
  lemma DurationDefectWitness(env: Env, paths: JobPaths, uniqueId: int, sessionTitle: Option<string>,
                              presenters: Option<string>)
    ensures var w := DurationAsWritten(env);
      && WhisperFailure(w).Some?
      && WhisperOutcome(WhisperFailure(w)).Raised?
      && !PdfRendered(w)
      && UpsertedRecord(w, uniqueId, sessionTitle, presenters).None?
      && WhisperCreated(w, paths) <= {paths.audio}
    ensures SetUpFailure(env).None? && StageOk(env, LoadCredentials) && StageOk(env, UploadAudio) ==>
      WhisperFailure(DurationAsWritten(env)) == Some(Split)
  {
    var w := DurationAsWritten(env);
    assert SetUpFailure(w) == SetUpFailure(env);
    assert FrontFailure(w).Some?;
  }
}
