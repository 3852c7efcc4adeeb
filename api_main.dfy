/** The older Modal pipeline (api/main.py): `process_audio` fetches the source,
    and `transcribe_audio` splits, transcribes, writes the transcription JSON,
    renders the PDF and uploads it; the `finally` block deletes the raw audio. */
module ApiMain {
  import opened Common
  import opened Numerals
  import opened Paths
  import opened Files
  import opened Stages
  import opened Steps

  /** The stages in the order the try block (and `transcribe_audio` inside
      it) reaches them. */
  const ApiStages: seq<Stage> :=
    [ModelDownload, MakeDirs, Acquire, Split, Transcribe, WriteJson, RenderPdf, LoadCredentials, UploadPdf]

  /** The job's files: the raw audio under `RAW_AUDIO_DIR`, the JSON from
      `get_transcript_path`, and the PDF named after the slug read back from
      the audio path. */
  function ApiPaths(titleSlug: string, isVideo: bool): JobPaths
  {
    var audio := AudioFilePath(titleSlug, isVideo);
    JobPaths(audio, TranscriptPath(titleSlug), PdfPath(TitleSlugOf(audio)))
  }

  function ApiEnv(svc: Services, titleSlug: string, isVideo: bool, files: set<string>): Env
  {
    JobEnv(svc, isVideo, ApiPaths(titleSlug, isVideo).audio in files)
  }

  /** The api stage order, one suffix at a time. */
  lemma ApiSuffixes()
    ensures ApiStages[1..] == [MakeDirs, Acquire, Split, Transcribe, WriteJson, RenderPdf, LoadCredentials, UploadPdf]
    ensures ApiStages[1..][1..] == [Acquire, Split, Transcribe, WriteJson, RenderPdf, LoadCredentials, UploadPdf]
    ensures ApiStages[1..][1..][1..] == [Split, Transcribe, WriteJson, RenderPdf, LoadCredentials, UploadPdf]
    ensures ApiStages[1..][1..][1..][1..] == [Transcribe, WriteJson, RenderPdf, LoadCredentials, UploadPdf]
    ensures ApiStages[1..][1..][1..][1..][1..] == [WriteJson, RenderPdf, LoadCredentials, UploadPdf]
    ensures ApiStages[1..][1..][1..][1..][1..][1..] == [RenderPdf, LoadCredentials, UploadPdf]
    ensures ApiStages[1..][1..][1..][1..][1..][1..][1..] == [LoadCredentials, UploadPdf]
    ensures ApiStages[1..][1..][1..][1..][1..][1..][1..][1..] == [UploadPdf]
  {
  }

  /** The stage at which the api try block stops, the stages taken in order. */
  function ApiFailure(env: Env): Option<Stage>
  {
    if SetUpFailure(env).Some? then SetUpFailure(env)
    else if !StageOk(env, Split) then Some(Split)
    else if !StageOk(env, Transcribe) then Some(Transcribe)
    else if !StageOk(env, WriteJson) then Some(WriteJson)
    else if !StageOk(env, RenderPdf) then Some(RenderPdf)
    else if !StageOk(env, LoadCredentials) then Some(LoadCredentials)
    else if !StageOk(env, UploadPdf) then Some(UploadPdf)
    else None
  }

  /** The try block stops at the first stage of `ApiStages` that fails. */
  lemma ApiFailureIsFirst(env: Env)
    ensures ApiFailure(env) == FirstFailure(ApiStages, env)
  {
    ApiSuffixes();
    var s := ApiStages;
    Unroll(s, env);
    Unroll(s[1..], env);
    Unroll(s[1..][1..], env);
    Unroll(s[1..][1..][1..], env);
    Unroll(s[1..][1..][1..][1..], env);
    Unroll(s[1..][1..][1..][1..][1..], env);
    Unroll(s[1..][1..][1..][1..][1..][1..], env);
    Unroll(s[1..][1..][1..][1..][1..][1..][1..], env);
    Unroll(s[1..][1..][1..][1..][1..][1..][1..][1..], env);
  }

  /** Which of the file-writing stages of the api order pass. */
  lemma ApiPassed(env: Env)
    ensures Passed(ApiStages, env, 2) <==> StageOk(env, ModelDownload) && StageOk(env, MakeDirs) && StageOk(env, Acquire)
    ensures Passed(ApiStages, env, 5) <==>
      Passed(ApiStages, env, 2) && StageOk(env, Split) && StageOk(env, Transcribe) && StageOk(env, WriteJson)
    ensures Passed(ApiStages, env, 6) <==> Passed(ApiStages, env, 5) && StageOk(env, RenderPdf)
  {
    var s := ApiStages;
    assert s[0] == ModelDownload && s[1] == MakeDirs && s[2] == Acquire && s[3] == Split;
    assert s[4] == Transcribe && s[5] == WriteJson && s[6] == RenderPdf;
  }

  /** The local files the api try block creates: the raw audio once the
      source is acquired, the JSON once it is dumped, the PDF once it is
      rendered. */
  function ApiCreated(env: Env, paths: JobPaths): set<string>
  {
    if SetUpFailure(env).Some? then {}
    else if !StageOk(env, Split) || !StageOk(env, Transcribe) || !StageOk(env, WriteJson) then {paths.audio}
    else if !StageOk(env, RenderPdf) then {paths.audio, paths.transcript}
    else {paths.audio, paths.transcript, paths.pdf}
  }

  /** Each file is created exactly when the stage that writes it passes:
      `Acquire` at index 2, `WriteJson` at 5 and `RenderPdf` at 6. */
  lemma ApiCreatedByStage(env: Env, paths: JobPaths)
    ensures ApiStages[2] == Acquire && ApiStages[5] == WriteJson && ApiStages[6] == RenderPdf
    ensures ApiCreated(env, paths) ==
      (if Passed(ApiStages, env, 2) then {paths.audio} else {}) +
      (if Passed(ApiStages, env, 5) then {paths.transcript} else {}) +
      (if Passed(ApiStages, env, 6) then {paths.pdf} else {})
  {
    ApiPassed(env);
  }

  /** The try block: each stage in turn, the first one that raises ending it. */
  method ApiTry(fs: FileSystem, env: Env, paths: JobPaths) returns (failed: Option<Stage>)
    requires env == JobEnv(env.svc, env.isVideo, paths.audio in fs.files)
    modifies fs
    ensures failed == ApiFailure(env)
    ensures fs.files == old(fs.files) + ApiCreated(env, paths)
  {
    failed := SetUpJob(fs, env, paths);
    if failed.Some? {
      return;
    }
    failed := ApiBack(fs, env, paths);
  }

  /** The try block after the set-up stages: the remote transcription, which
      splits, transcribes, dumps the JSON, renders and uploads the PDF. */
  method ApiBack(fs: FileSystem, env: Env, paths: JobPaths) returns (failed: Option<Stage>)
    requires env.transcript == JobEnv(env.svc, env.isVideo, env.audioPresent).transcript
    requires SetUpFailure(env).None?
    modifies fs
    ensures failed == ApiFailure(env)
    ensures fs.files == old(fs.files) +
      if !StageOk(env, Split) || !StageOk(env, Transcribe) || !StageOk(env, WriteJson) then {}
      else if !StageOk(env, RenderPdf) then {paths.transcript}
      else {paths.transcript, paths.pdf}
  {
    var svc := env.svc;
    var f, job := SplitAndTranscribe(svc);
    if f.Some? {
      return f;
    }
    if !svc.jsonWrite {
      return Some(WriteJson);
    }
    fs.Write(paths.transcript);
    if !svc.pdfRender {
      return Some(RenderPdf);
    }
    fs.Write(paths.pdf);
    if !svc.credentials {
      return Some(LoadCredentials);
    }
    if svc.pdfUpload.None? {
      return Some(UploadPdf);
    }
    failed := None;
  }

  /** `process_audio` as written: the `finally` block calls `os.remove` on
      the audio path whether or not the file exists, so a job that fails
      before the audio is on disk ends with `FileNotFoundError` instead of
      the `DaciteError` that reports the failure. */
  method ProcessAudioAsWritten(fs: FileSystem, svc: Services, titleSlug: string, isVideo: bool)
    returns (outcome: Outcome<string>)
    modifies fs
    ensures var env, paths := ApiEnv(svc, titleSlug, isVideo, old(fs.files)), ApiPaths(titleSlug, isVideo);
      fs.files == (old(fs.files) + ApiCreated(env, paths)) - {paths.audio}
    ensures var env, paths := ApiEnv(svc, titleSlug, isVideo, old(fs.files)), ApiPaths(titleSlug, isVideo);
      paths.audio !in old(fs.files) + ApiCreated(env, paths) ==>
        outcome == Raised(FileNotFoundError(paths.audio))
    ensures var env, paths := ApiEnv(svc, titleSlug, isVideo, old(fs.files)), ApiPaths(titleSlug, isVideo);
      paths.audio in old(fs.files) + ApiCreated(env, paths) ==>
        outcome == ApiOutcome(svc, ApiFailure(env))
  {
    var paths := ApiPaths(titleSlug, isVideo);
    var env := JobEnv(svc, isVideo, paths.audio in fs.files);
    var failed := ApiTry(fs, env, paths);
    var removeError := fs.Remove(paths.audio);
    if removeError.Some? {
      return Raised(removeError.value);
    }
    outcome := ApiOutcome(svc, failed);
  }

  /** What the corrected `process_audio` reports: the public URL of the PDF,
      or `DaciteError` chained to the first failure. */
  function ApiOutcome(svc: Services, failed: Option<Stage>): Outcome<string>
  {
    match failed
    case Some(stage) => Raised(DaciteError(StageError(stage)))
    case None => if svc.pdfUpload.Some? then Returned(svc.pdfUpload.value) else Returned("")
  }

  /** A job that passes every stage returns the URL of the uploaded PDF; one
      that fails raises `DaciteError` chained to the stage that failed. */
  lemma ApiOutcomeReportsFailure(env: Env)
    ensures ApiFailure(env).None? ==>
      env.svc.pdfUpload.Some? && ApiOutcome(env.svc, ApiFailure(env)) == Returned(env.svc.pdfUpload.value)
    ensures ApiFailure(env).Some? ==>
      ApiOutcome(env.svc, ApiFailure(env)) == Raised(DaciteError(StageError(ApiFailure(env).value)))
  {
  }

  /** `process_audio` with the removal guarded by an existence check, as the
      whisper pipeline does it: the caller always learns the failing stage. */
  method ProcessAudio(fs: FileSystem, svc: Services, titleSlug: string, isVideo: bool)
    returns (outcome: Outcome<string>)
    modifies fs
    ensures var env, paths := ApiEnv(svc, titleSlug, isVideo, old(fs.files)), ApiPaths(titleSlug, isVideo);
      fs.files == (old(fs.files) + ApiCreated(env, paths)) - {paths.audio}
    ensures outcome == ApiOutcome(svc, ApiFailure(ApiEnv(svc, titleSlug, isVideo, old(fs.files))))
  {
    var paths := ApiPaths(titleSlug, isVideo);
    var env := JobEnv(svc, isVideo, paths.audio in fs.files);
    var failed := ApiTry(fs, env, paths);
    fs.RemoveIfExists(paths.audio);
    outcome := ApiOutcome(svc, failed);
  }

  /** A PDF name never holds a `/`: it is the stem of a basename. */
  lemma TitleSlugHasNoSlash(path: string)
    ensures '/' !in TitleSlugOf(path)
  {
    var b := Basename(path);
    assert '/' !in b;
    var r := LastIndexOf(b, '.');
    if r.Some? {
      assert forall k :: 0 <= k < r.value ==> b[..r.value][k] == b[k];
    }
  }

  /** The raw-audio path is absolute whatever the slug. */
  lemma AudioPathAbsolute(titleSlug: string, isVideo: bool)
    ensures var a := AudioFilePath(titleSlug, isVideo); |a| > 0 && a[0] == '/'
  {
    var dir := JoinPath(RawAudioDir, titleSlug);
    assert dir[0] == '/';
    if isVideo {
      assert AudioFilePath(titleSlug, isVideo) == dir + ".mp3";
    }
  }

  /** The JSON path is never the raw-audio path: they differ in their
      directory, or (for an absolute slug, which replaces the directory) in
      their suffix. */
  lemma AudioNotTranscript(titleSlug: string, isVideo: bool)
    ensures AudioFilePath(titleSlug, isVideo) != TranscriptPath(titleSlug)
  {
    var audio, transcript := AudioFilePath(titleSlug, isVideo), TranscriptPath(titleSlug);
    var dir := JoinPath(RawAudioDir, titleSlug);
    assert audio == if isVideo then dir + ".mp3" else dir;
    var name := titleSlug + ".json";
    if titleSlug != [] && titleSlug[0] == '/' {
      assert transcript == name && dir == titleSlug;
      assert |audio| != |transcript|;
    } else {
      assert name[0] != '/' by {
        if titleSlug != [] { assert name[0] == titleSlug[0]; }
      }
      assert transcript == TranscriptionsDir + "/" + name;
      assert transcript[7] == 't';
      assert dir[7] == 'r';
      assert audio[7] == dir[7];
    }
  }

  /** The raw audio is never the JSON or the PDF of the same job, whatever the
      slug: the audio path is absolute and the PDF name holds no `/`. */
  lemma ApiPathsDistinct(titleSlug: string, isVideo: bool)
    ensures var p := ApiPaths(titleSlug, isVideo);
      p.audio != p.transcript && p.audio != p.pdf
  {
    var p := ApiPaths(titleSlug, isVideo);
    AudioNotTranscript(titleSlug, isVideo);
    AudioPathAbsolute(titleSlug, isVideo);
    TitleSlugHasNoSlash(p.audio);
    assert p.pdf == TitleSlugOf(p.audio) + ".pdf";
    assert p.audio[0] in p.audio;
  }

  /** The audio file is missing at clean-up exactly when it was not on disk
      before the job and the job failed before or while acquiring it: then
      the unguarded removal raises. */
  lemma AudioMissingAtCleanup(svc: Services, titleSlug: string, isVideo: bool, files: set<string>)
    ensures var env, paths := ApiEnv(svc, titleSlug, isVideo, files), ApiPaths(titleSlug, isVideo);
      paths.audio !in files + ApiCreated(env, paths) <==>
        !env.audioPresent && ApiFailure(env) in {Some(ModelDownload), Some(MakeDirs), Some(Acquire)}
  {
    var env, paths := ApiEnv(svc, titleSlug, isVideo, files), ApiPaths(titleSlug, isVideo);
    ApiPathsDistinct(titleSlug, isVideo);
    assert env.audioPresent == (paths.audio in files);
    assert paths.audio in ApiCreated(env, paths) <==> SetUpFailure(env).None?;
    assert SetUpFailure(env).Some? ==> ApiFailure(env) == SetUpFailure(env);
    assert SetUpFailure(env).None? ==> ApiFailure(env) !in {Some(ModelDownload), Some(MakeDirs), Some(Acquire)};
  }

  /** The model download, the one failure no input can prevent, on a new job:
      the as-written pipeline raises `FileNotFoundError` for the audio path. */
  lemma DownloadFailureMasked(svc: Services, titleSlug: string, isVideo: bool, files: set<string>)
    requires !svc.modelDownload && AudioFilePath(titleSlug, isVideo) !in files
    ensures var env, paths := ApiEnv(svc, titleSlug, isVideo, files), ApiPaths(titleSlug, isVideo);
      ApiFailure(env) == Some(ModelDownload) &&
      paths.audio !in files + ApiCreated(env, paths)
  {
    AudioMissingAtCleanup(svc, titleSlug, isVideo, files);
  }

  /** The corrected pipeline leaves no raw audio behind, and keeps the JSON and
      the PDF of the stages that completed: `finally` removes only the audio. */
  lemma CleanupKeepsOutputs(svc: Services, titleSlug: string, isVideo: bool, files: set<string>)
    ensures var env, paths := ApiEnv(svc, titleSlug, isVideo, files), ApiPaths(titleSlug, isVideo);
      var after := (files + ApiCreated(env, paths)) - {paths.audio};
      paths.audio !in after &&
      (Passed(ApiStages, env, 5) ==> paths.transcript in after) &&
      (Passed(ApiStages, env, 6) ==> paths.pdf in after) &&
      (forall p :: p != paths.audio && p != paths.transcript && p != paths.pdf ==> (p in after <==> p in files))
  {
    var env, paths := ApiEnv(svc, titleSlug, isVideo, files), ApiPaths(titleSlug, isVideo);
    ApiPathsDistinct(titleSlug, isVideo);
    ApiCreatedByStage(env, paths);
  }
}
