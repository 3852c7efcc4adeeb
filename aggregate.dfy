/** The transcription of a whole recording (`transcribe_audio`, and the same
    block inside the whisper pipeline's `process_audio`): every chunk goes
    through `transcribe_segment`, in chunk order, and the results are folded
    into one `{text, segments, language}` value. */
module Aggregate {
  import opened Common
  import opened Transcribe

  /** The aggregated transcription of a job. */
  datatype JobResult = JobResult(text: string, segments: seq<Segment>, language: string)

  /** The language the aggregate always reports, whatever the model detected. */
  const JobLanguage: string := "en"

  /** One chunk's result with the offsets added back, or `None` when the model fails. */
  function Transcribed(clip: Boundary, model: Capability): Option<Transcription>
  {
    match model(clip)
    case None => None
    case Some(t) => Some(WithOffsets(t, clip.start))
  }

  /** `starmap` of the transcriber over the chunks, as an ordered map that
      fails as soon as one chunk fails. */
  function TranscribeEach(clips: seq<Boundary>, model: Capability): Option<seq<Transcription>>
  {
    if clips == [] then Some([])
    else
      match TranscribeEach(clips[..|clips| - 1], model)
      case None => None
      case Some(rs) =>
        match Transcribed(clips[|clips| - 1], model)
        case None => None
        case Some(t) => Some(rs + [t])
  }

  /** `output_text += result["text"]` over the results: no separator. */
  function ConcatTexts(results: seq<Transcription>): string
  {
    if results == [] then "" else ConcatTexts(results[..|results| - 1]) + results[|results| - 1].text
  }

  /** `output_segments += result["segments"]` over the results. */
  function ConcatSegments(results: seq<Transcription>): seq<Segment>
  {
    if results == [] then [] else ConcatSegments(results[..|results| - 1]) + results[|results| - 1].segments
  }

  /** The dict built after the loop. */
  function Aggregated(results: seq<Transcription>): JobResult
  {
    JobResult(ConcatTexts(results), ConcatSegments(results), JobLanguage)
  }

  /** What the transcription of a whole recording returns: the aggregate of
      the shifted per-chunk results, or `None` if a chunk fails. */
  function TranscribeChunks(clips: seq<Boundary>, model: Capability): Option<JobResult>
  {
    match TranscribeEach(clips, model)
    case None => None
    case Some(rs) => Some(Aggregated(rs))
  }

  /** The loop over the `starmap` results, consumed one chunk at a time. */
  method TranscribeAudio(clips: seq<Boundary>, model: Capability) returns (r: Option<JobResult>)
    ensures r == TranscribeChunks(clips, model)
  {
    var outputText := "";
    var outputSegments: seq<Segment> := [];
    ghost var done: seq<Transcription> := [];
    for i := 0 to |clips|
      invariant TranscribeEach(clips[..i], model) == Some(done)
      invariant outputText == ConcatTexts(done) && outputSegments == ConcatSegments(done)
    {
      assert clips[..i + 1][..i] == clips[..i];
      var result := TranscribeSegment(clips[i], model);
      if result.None? {
        assert TranscribeEach(clips[..i + 1], model).None?;
        FailurePropagates(clips, model, i + 1);
        return None;
      }
      outputText := outputText + result.value.text;
      outputSegments := outputSegments + result.value.segments;
      assert (done + [result.value])[..|done|] == done;
      done := done + [result.value];
    }
    assert clips[..|clips|] == clips;
    r := Some(JobResult(outputText, outputSegments, JobLanguage));
  }

  /** Once a prefix fails, the whole map fails. */
  lemma {:induction false} FailurePropagates(clips: seq<Boundary>, model: Capability, n: nat)
    requires n <= |clips| && TranscribeEach(clips[..n], model).None?
    ensures TranscribeEach(clips, model).None?
    decreases |clips| - n
  {
    if n < |clips| {
      assert clips[..n + 1][..n] == clips[..n];
      FailurePropagates(clips, model, n + 1);
    } else {
      assert clips[..n] == clips;
    }
  }

  /** The map succeeds exactly when the model succeeds on every chunk, and
      then its `i`-th result is chunk `i`'s result shifted by the chunk's start. */
  lemma {:induction false} TranscribeEachSpec(clips: seq<Boundary>, model: Capability)
    ensures TranscribeEach(clips, model).Some? <==> forall i :: 0 <= i < |clips| ==> model(clips[i]).Some?
    ensures TranscribeEach(clips, model).Some? ==>
      var rs := TranscribeEach(clips, model).value;
      |rs| == |clips| &&
      forall i :: 0 <= i < |clips| ==> rs[i] == WithOffsets(model(clips[i]).value, clips[i].start)
  {
    if clips != [] {
      var init := clips[..|clips| - 1];
      TranscribeEachSpec(init, model);
      assert forall i :: 0 <= i < |init| ==> init[i] == clips[i];
    }
  }

  /** Concatenating the texts of two runs of results. */
  lemma {:induction false} ConcatTextsAppend(a: seq<Transcription>, b: seq<Transcription>)
    ensures ConcatTexts(a + b) == ConcatTexts(a) + ConcatTexts(b)
    decreases |b|
  {
    if b == [] {
      assert a + b == a;
    } else {
      assert (a + b)[..|a + b| - 1] == a + b[..|b| - 1];
      ConcatTextsAppend(a, b[..|b| - 1]);
    }
  }

  /** Concatenating the segment lists of two runs of results. */
  lemma {:induction false} ConcatSegmentsAppend(a: seq<Transcription>, b: seq<Transcription>)
    ensures ConcatSegments(a + b) == ConcatSegments(a) + ConcatSegments(b)
    decreases |b|
  {
    if b == [] {
      assert a + b == a;
    } else {
      assert (a + b)[..|a + b| - 1] == a + b[..|b| - 1];
      ConcatSegmentsAppend(a, b[..|b| - 1]);
    }
  }

  /** Result `j`'s segments sit in the aggregate, in order, right after the
      segments of the results before it. */
  lemma SegmentsInPlace(results: seq<Transcription>, j: nat, k: nat)
    requires j < |results| && k < |results[j].segments|
    ensures var base := |ConcatSegments(results[..j])|;
      base + k < |ConcatSegments(results)| &&
      ConcatSegments(results)[base + k] == results[j].segments[k]
  {
    var pre, post := results[..j + 1], results[j + 1..];
    assert results == pre + post;
    ConcatSegmentsAppend(pre, post);
    assert pre[..j] == results[..j];
  }

  /** Result `j`'s text sits in the aggregate text right after the texts of
      the results before it. */
  lemma TextInPlace(results: seq<Transcription>, j: nat)
    requires j < |results|
    ensures var base := |ConcatTexts(results[..j])|;
      var t := results[j].text;
      base + |t| <= |ConcatTexts(results)| &&
      ConcatTexts(results)[base..base + |t|] == t
  {
    var pre, post := results[..j + 1], results[j + 1..];
    assert results == pre + post;
    ConcatTextsAppend(pre, post);
    assert pre[..j] == results[..j];
  }

  /** End to end: when every chunk is transcribed, the `k`-th segment the
      model reported for chunk `j` appears in the job's segments with the
      chunk's start added to both of its times, and its text unchanged. */
  lemma TimestampsPlaced(clips: seq<Boundary>, model: Capability, j: nat, k: nat)
    requires TranscribeChunks(clips, model).Some?
    requires j < |clips| && model(clips[j]).Some? && k < |model(clips[j]).value.segments|
    ensures TranscribeEach(clips, model).Some? && |TranscribeEach(clips, model).value| == |clips|
    ensures var base := |ConcatSegments(TranscribeEach(clips, model).value[..j])|;
      var s := model(clips[j]).value.segments[k];
      var out := TranscribeChunks(clips, model).value.segments;
      base + k < |out| &&
      out[base + k] == Segment(s.text, s.start + clips[j].start, s.end + clips[j].start)
  {
    ChunkResult(clips, model, j);
    ChunkSegmentsPlaced(TranscribeEach(clips, model).value, TranscribeChunks(clips, model).value.segments, j, k, model(clips[j]).value, clips[j].start);
  }

  /** The `j`-th result of a successful map, by `TranscribeEachSpec`. */
  lemma ChunkResult(clips: seq<Boundary>, model: Capability, j: nat)
    requires TranscribeChunks(clips, model).Some? && j < |clips| && model(clips[j]).Some?
    ensures TranscribeEach(clips, model).Some?
    ensures var rs := TranscribeEach(clips, model).value;
      |rs| == |clips| && rs[j] == WithOffsets(model(clips[j]).value, clips[j].start)
    ensures TranscribeChunks(clips, model).value.segments == ConcatSegments(TranscribeEach(clips, model).value)
  {
    TranscribeEachSpec(clips, model);
  }

  /** Segment `k` of a shifted result `j` sits, shifted, after the segments
      of the results before it. */
  lemma ChunkSegmentsPlaced(rs: seq<Transcription>, out: seq<Segment>, j: nat, k: nat, t: Transcription, off: real)
    requires j < |rs| && rs[j] == WithOffsets(t, off) && k < |t.segments| && out == ConcatSegments(rs)
    ensures var base := |ConcatSegments(rs[..j])|;
      base + k < |out| &&
      out[base + k] == Segment(t.segments[k].text, t.segments[k].start + off, t.segments[k].end + off)
  {
    SegmentsInPlace(rs, j, k);
    ShiftedAt(t.segments, off, k);
  }

  /** The `k`-th shifted segment. */
  lemma ShiftedAt(segments: seq<Segment>, offset: real, k: nat)
    requires k < |segments|
    ensures k < |ShiftAll(segments, offset)|
    ensures ShiftAll(segments, offset)[k] == Segment(segments[k].text, segments[k].start + offset, segments[k].end + offset)
  {
  }

  /** The aggregate reports English whatever language the model detected, and
      holds as many segments as the chunks' results together. */
  lemma AggregatedLanguageAndCount(clips: seq<Boundary>, model: Capability)
    requires TranscribeChunks(clips, model).Some?
    ensures TranscribeChunks(clips, model).value.language == "en"
    ensures |TranscribeChunks(clips, model).value.segments| == TotalSegments(TranscribeEach(clips, model).value)
  {
    SegmentCount(TranscribeEach(clips, model).value);
  }

  /** The number of segments in a run of results. */
  function TotalSegments(results: seq<Transcription>): nat
  {
    if results == [] then 0 else TotalSegments(results[1..]) + |results[0].segments|
  }

  lemma {:induction false} SegmentCount(results: seq<Transcription>)
    ensures |ConcatSegments(results)| == TotalSegments(results)
  {
    if results != [] {
      var head, tail := results[..1], results[1..];
      assert results == head + tail;
      ConcatSegmentsAppend(head, tail);
      assert head[..0] == [];
      SegmentCount(tail);
    }
  }
}
