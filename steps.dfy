/** The stages both pipelines share, run against the filesystem: fetching the
    source audio, and splitting plus transcribing it. */
module Steps {
  import opened Common
  import opened Files
  import opened Silence
  import opened Aggregate
  import opened Stages

  /** `download_convert_video_to_audio` for a video, `store_original_audio`
      for an audio source; the latter returns at once when the destination
      already exists. Either writes the raw-audio file. */
  method AcquireAudio(fs: FileSystem, env: Env, paths: JobPaths) returns (ok: bool)
    requires env.audioPresent == (paths.audio in fs.files)
    modifies fs
    ensures ok == StageOk(env, Acquire)
    ensures fs.files == if ok then old(fs.files) + {paths.audio} else old(fs.files)
  {
    if !env.isVideo && fs.Exists(paths.audio) {
      return true;
    }
    if !env.svc.acquire {
      return false;
    }
    fs.Write(paths.audio);
    ok := true;
  }

  /** The set-up stages: the model download, the two `mkdir` calls and the
      source; only the last creates a file. */
  method SetUpJob(fs: FileSystem, env: Env, paths: JobPaths) returns (failed: Option<Stage>)
    requires env.audioPresent == (paths.audio in fs.files)
    modifies fs
    ensures failed == SetUpFailure(env)
    ensures fs.files == old(fs.files) + (if failed.None? then {paths.audio} else {})
  {
    if !env.svc.modelDownload {
      return Some(ModelDownload);
    }
    if !env.svc.makeDirs {
      return Some(MakeDirs);
    }
    var acquired := AcquireAudio(fs, env, paths);
    if !acquired {
      return Some(Acquire);
    }
    failed := None;
  }

  /** `split_silences` on the probed recording, then the transcription of
      every chunk and the aggregation of the results. */
  method SplitAndTranscribe(svc: Services) returns (failed: Option<Stage>, job: JobResult)
    ensures svc.probe.None? ==> failed == Some(Split)
    ensures svc.probe.Some? && TranscribeChunks(Clips(svc), svc.model).None? ==> failed == Some(Transcribe)
    ensures svc.probe.Some? && TranscribeChunks(Clips(svc), svc.model).Some? ==>
      failed.None? && job == TranscribeChunks(Clips(svc), svc.model).value
  {
    if svc.probe.None? {
      return Some(Split), JobResult("", [], JobLanguage);
    }
    var clips, numSegments := SplitSilencesStream(svc.silenceLog, svc.probe.value, MinSegmentLength);
    var r := TranscribeAudio(clips, svc.model);
    if r.None? {
      return Some(Transcribe), JobResult("", [], JobLanguage);
    }
    failed, job := None, r.value;
  }
}
