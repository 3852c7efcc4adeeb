/** One clip through the speech-to-text model (`transcribe_segment`): the
    model reports times local to the clip, and the loop after it adds the
    clip's start back to every segment, in place. */
module Transcribe {
  import opened Common

  /** A segment moved `offset` seconds later. */
  function Shifted(s: Segment, offset: real): Segment
  {
    Segment(s.text, s.start + offset, s.end + offset)
  }

  /** Every segment moved `offset` seconds later, in order. */
  function ShiftAll(segments: seq<Segment>, offset: real): seq<Segment>
  {
    seq(|segments|, i requires 0 <= i < |segments| => Shifted(segments[i], offset))
  }

  /** The model's result with its segments moved to the clip's place in the recording. */
  function WithOffsets(t: Transcription, offset: real): Transcription
  {
    Transcription(t.text, ShiftAll(t.segments, offset), t.language)
  }

  /** The "add back offsets" loop: `segment["start"] += start` and
      `segment["end"] += start` for every segment, in place. */
  method AddBackOffsets(a: array<Segment>, offset: real)
    modifies a
    ensures a[..] == ShiftAll(old(a[..]), offset)
    ensures forall i :: 0 <= i < a.Length ==>
      a[i].start == old(a[i].start) + offset && a[i].end == old(a[i].end) + offset && a[i].text == old(a[i].text)
  {
    for i := 0 to a.Length
      invariant forall k :: 0 <= k < i ==> a[k] == Shifted(old(a[k]), offset)
      invariant forall k :: i <= k < a.Length ==> a[k] == old(a[k])
    {
      a[i] := Segment(a[i].text, a[i].start + offset, a[i].end + offset);
    }
  }

  /** `transcribe_segment(start, end, ...)`: the model transcribes the clip
      `clip` (or fails), then the offsets are added back to the segment
      list it returned. Text and language are returned as the model gave them. */
  method TranscribeSegment(clip: Boundary, model: Capability) returns (r: Option<Transcription>)
    ensures r.None? <==> model(clip).None?
    ensures r.Some? ==> r.value == WithOffsets(model(clip).value, clip.start)
  {
    var result := model(clip);
    if result.None? {
      return None;
    }
    var t := result.value;
    var a := new Segment[|t.segments|](i requires 0 <= i < |t.segments| => t.segments[i]);
    assert a[..] == t.segments;
    AddBackOffsets(a, clip.start);
    r := Some(Transcription(t.text, a[..], t.language));
  }

  /** The rewrite keeps the number, order, texts and durations of the segments. */
  lemma ShiftKeepsShape(segments: seq<Segment>, offset: real)
    ensures |ShiftAll(segments, offset)| == |segments|
    ensures forall i :: 0 <= i < |segments| ==>
      var s, r := segments[i], ShiftAll(segments, offset)[i];
      r.text == s.text && r.end - r.start == s.end - s.start
  {
  }

  /** With offset 0.0 the segments are returned as the model gave them. */
  lemma ShiftByZero(segments: seq<Segment>)
    ensures ShiftAll(segments, 0.0) == segments
  {
    assert forall i :: 0 <= i < |segments| ==> ShiftAll(segments, 0.0)[i] == segments[i];
  }

  /** Shifting by `a` and then by `b` is shifting by `a + b`; in particular
      shifting back by `-offset` recovers the model's local times. */
  lemma ShiftCompose(segments: seq<Segment>, a: real, b: real)
    ensures ShiftAll(ShiftAll(segments, a), b) == ShiftAll(segments, a + b)
    ensures ShiftAll(ShiftAll(segments, a), -a) == segments
  {
    var once := ShiftAll(segments, a);
    assert forall i :: 0 <= i < |segments| ==> ShiftAll(once, b)[i] == ShiftAll(segments, a + b)[i];
    assert forall i :: 0 <= i < |segments| ==> ShiftAll(once, -a)[i] == segments[i];
  }

  /** The top-level text and language of a clip's result are never touched;
      a clip starting at 0.0 comes back unchanged. */
  lemma WithOffsetsKeeps(t: Transcription, offset: real)
    ensures WithOffsets(t, offset).text == t.text && WithOffsets(t, offset).language == t.language
    ensures |WithOffsets(t, offset).segments| == |t.segments|
    ensures offset == 0.0 ==> WithOffsets(t, offset) == t
  {
    if offset == 0.0 {
      ShiftByZero(t.segments);
    }
  }
}
