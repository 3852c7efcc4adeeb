/** The stages of a transcription job as fallible steps: what the outside
    world answers at each stage, which stages run before the first failure,
    and the local files the completed stages create. */
module Stages {
  import opened Common
  import opened Silence
  import opened Aggregate

  /** What the external tools and services do for one job. */
  datatype Services = Services(
    modelDownload: bool,        // `whisper._download` of the model
    makeDirs: bool,             // `mkdir` of the two cache directories
    acquire: bool,              // download (or download and convert) of the source
    credentials: bool,          // parsing of `SERVICE_ACCOUNT_JSON` into credentials
    audioUpload: Option<string>,// public URL of the uploaded audio, or failure
    probe: Option<real>,        // `ffmpeg.probe` duration, or failure
    silenceLog: seq<string>,    // the stderr lines of `silencedetect`
    model: Capability,          // the speech-to-text model on one clip
    jsonWrite: bool,            // `json.dump` into the transcription file
    pdfRender: bool,            // `pdf.create_pdf`
    pdfUpload: Option<string>,  // public URL of the uploaded PDF, or failure
    upsert: bool                // `supabase_upsert`
  )

  /** One job: its services, whether the source is a video, whether the raw
      audio file existed before the job started, and the aggregated
      transcription of the recording (`None` when a chunk fails). */
  datatype Env = Env(svc: Services, isVideo: bool, audioPresent: bool, transcript: Option<JobResult>)

  /** The local files of a job. */
  datatype JobPaths = JobPaths(audio: string, transcript: string, pdf: string)

  /** The chunks `split_silences` yields once the probe has succeeded. */
  function Clips(svc: Services): seq<Boundary>
    requires svc.probe.Some?
  {
    SplitSilences(svc.silenceLog, svc.probe.value, MinSegmentLength)
  }

  /** The job run with `svc`: its transcript is what the chunks of the
      probed recording give. */
  function JobEnv(svc: Services, isVideo: bool, audioPresent: bool): Env
  {
    Env(svc, isVideo, audioPresent, if svc.probe.Some? then TranscribeChunks(Clips(svc), svc.model) else None)
  }

  /** Whether `stage` completes without raising. A non-video source already
      on disk is not downloaded again (`store_original_audio` returns early). */
  predicate StageOk(env: Env, stage: Stage)
  {
    var svc := env.svc;
    match stage
    case ModelDownload => svc.modelDownload
    case MakeDirs => svc.makeDirs
    case Acquire => (!env.isVideo && env.audioPresent) || svc.acquire
    case LoadCredentials => svc.credentials
    case UploadAudio => svc.audioUpload.Some?
    case Split => svc.probe.Some?
    case Transcribe => env.transcript.Some?
    case WriteJson => svc.jsonWrite
    case RenderPdf => svc.pdfRender
    case UploadPdf => svc.pdfUpload.Some?
    case Upsert => svc.upsert
  }

  /** The first of the three set-up stages both pipelines begin with (the
      model download, the cache directories, the source) that raises. */
  function SetUpFailure(env: Env): Option<Stage>
  {
    if !StageOk(env, ModelDownload) then Some(ModelDownload)
    else if !StageOk(env, MakeDirs) then Some(MakeDirs)
    else if !StageOk(env, Acquire) then Some(Acquire)
    else None
  }

  /** The first stage of `stages` that raises, if any. */
  function FirstFailure(stages: seq<Stage>, env: Env): (r: Option<Stage>)
    ensures r.None? <==> forall i :: 0 <= i < |stages| ==> StageOk(env, stages[i])
    ensures r.Some? ==> exists i :: (0 <= i < |stages| && stages[i] == r.value && !StageOk(env, r.value) &&
      forall k :: 0 <= k < i ==> StageOk(env, stages[k]))
  {
    if stages == [] then None
    else if !StageOk(env, stages[0]) then Some(stages[0])
    else
      var r := FirstFailure(stages[1..], env);
      assert forall i :: 0 < i < |stages| ==> stages[i] == stages[1..][i - 1];
      if r.Some? then
        var i :| 0 <= i < |stages[1..]| && stages[1..][i] == r.value && !StageOk(env, r.value) &&
          forall k :: 0 <= k < i ==> StageOk(env, stages[1..][k]);
        assert stages[i + 1] == r.value;
        r
      else r
  }

  /** The stages that run and complete: the prefix before the first failure. */
  function Completed(stages: seq<Stage>, env: Env): seq<Stage>
  {
    if stages == [] || !StageOk(env, stages[0]) then []
    else [stages[0]] + Completed(stages[1..], env)
  }

  /** The completed stages are a prefix of the stages, every one of them
      succeeded, and the stage after them, if any, failed. */
  lemma {:induction false} CompletedIsPrefix(stages: seq<Stage>, env: Env)
    ensures var done := Completed(stages, env);
      |done| <= |stages| && done == stages[..|done|] &&
      (forall i :: 0 <= i < |done| ==> StageOk(env, done[i])) &&
      (|done| < |stages| ==> !StageOk(env, stages[|done|]))
  {
    if stages != [] && StageOk(env, stages[0]) {
      CompletedIsPrefix(stages[1..], env);
      var rest := Completed(stages[1..], env);
      assert stages[..|rest| + 1] == [stages[0]] + stages[1..][..|rest|];
    }
  }

  /** Whether the stage at index `k` ran and completed: it and every stage
      before it succeeded. */
  predicate Passed(stages: seq<Stage>, env: Env, k: nat)
  {
    k < |stages| && forall i :: 0 <= i <= k ==> StageOk(env, stages[i])
  }

  /** A stage passed exactly when it is among the completed ones. */
  lemma PassedIffCompleted(stages: seq<Stage>, env: Env, k: nat)
    ensures Passed(stages, env, k) <==> k < |Completed(stages, env)|
  {
    CompletedIsPrefix(stages, env);
    var done := Completed(stages, env);
    if k < |done| {
      assert forall i :: 0 <= i <= k ==> stages[i] == done[i];
    } else if k < |stages| {
      assert !StageOk(env, stages[|done|]);
    }
  }

  /** When no stage fails every stage completes, and otherwise the completed
      stages are exactly those before the failing one. */
  lemma CompletedUpToFailure(stages: seq<Stage>, env: Env)
    ensures FirstFailure(stages, env).None? <==> Completed(stages, env) == stages
    ensures FirstFailure(stages, env).Some? ==>
      var n := |Completed(stages, env)|;
      n < |stages| && stages[n] == FirstFailure(stages, env).value
  {
    CompletedIsPrefix(stages, env);
    var done := Completed(stages, env);
    var f := FirstFailure(stages, env);
    if f.Some? {
      var i :| 0 <= i < |stages| && stages[i] == f.value && !StageOk(env, f.value) &&
        forall k :: 0 <= k < i ==> StageOk(env, stages[k]);
      assert |done| == i;
    } else {
      assert |done| == |stages|;
    }
  }

  /** One stage of `FirstFailure` and `Completed`. */
  lemma Unroll(stages: seq<Stage>, env: Env)
    requires stages != []
    ensures FirstFailure(stages, env) ==
      if !StageOk(env, stages[0]) then Some(stages[0]) else FirstFailure(stages[1..], env)
    ensures Completed(stages, env) ==
      if !StageOk(env, stages[0]) then [] else [stages[0]] + Completed(stages[1..], env)
  {
  }
}
