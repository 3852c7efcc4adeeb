/** Values shared by the transcription pipeline: transcript segments, segment
    boundaries, what the speech-to-text capability reports, and the exceptions
    and stages of a job. */
module Common {

  datatype Option<+T> = None | Some(value: T)

  /** One transcript unit (the `Segment` typed dict): text with its start and
      end time in seconds. */
  datatype Segment = Segment(text: string, start: real, end: real)

  /** A chunk of the recording, `(start, end)` in seconds, as the silence
      segmenter yields it. */
  datatype Boundary = Boundary(start: real, end: real)

  /** What the speech-to-text model returns for one clip: the clip's full text,
      its segments with times local to the clip, and the detected language. */
  datatype Transcription = Transcription(text: string, segments: seq<Segment>, language: string)

  /** The speech-to-text capability: trim the recording to the boundary and
      transcribe the clip, or fail (`None`). */
  type Capability = Boundary -> Option<Transcription>

  /** The stages of a job, in the order the corrected pipeline runs them. */
  datatype Stage =
    | ModelDownload    // pre-download of the whisper model
    | MakeDirs         // mkdir of the raw-audio and transcription directories
    | Acquire          // download, or download and convert a video, into the raw-audio path
    | LoadCredentials  // parse SERVICE_ACCOUNT_JSON into cloud credentials
    | UploadAudio      // upload of the raw audio to the bucket
    | Split            // probe and silence detection
    | Transcribe       // one transcription per segment
    | WriteJson        // dump of the aggregated transcription
    | RenderPdf        // rendering of the transcript to a PDF
    | UploadPdf        // upload of the PDF to the bucket
    | Upsert           // insertion of the record into the metadata store

  /** The Python exceptions a job can end with. */
  datatype Exc =
    | StageError(stage: Stage)       // whatever an external stage raised
    | DaciteError(cause: Exc)        // `raise dacite.DaciteError(...) from cause`
    | UnboundLocalError(name: string)
    | FileNotFoundError(path: string)

  /** How a Python call ends: it returns a value or raises. */
  datatype Outcome<+T> = Returned(value: T) | Raised(exc: Exc)
}
