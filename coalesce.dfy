/** The transcript coalescer (`coalesce_short_transcript_segments` and
    `_combine_segments`): one left-to-right pass that merges a short segment
    with the ones after it until its text is long enough. */
module Coalesce {
  import opened Common

  /** `minimum_transcript_len`, fixed in the source: about two sentences. */
  const MinimumTranscriptLen: nat := 200

  /** `_combine_segments`: a new segment holding both texts, from the start of
      the left to the end of the right. */
  function CombineSegments(left: Segment, right: Segment): Segment
  {
    Segment(left.text + " " + right.text, left.start, right.end)
  }

  /** The rest of the pass once `previous` holds `acc` and `rest` is still to come. */
  function CoalesceFrom(acc: Segment, rest: seq<Segment>): seq<Segment>
    decreases |rest|
  {
    if rest == [] then [acc]
    else if |acc.text| < MinimumTranscriptLen then CoalesceFrom(CombineSegments(acc, rest[0]), rest[1..])
    else [acc] + CoalesceFrom(rest[0], rest[1..])
  }

  /** What the pass returns for `segments`. */
  function Coalesced(segments: seq<Segment>): seq<Segment>
  {
    if segments == [] then [] else CoalesceFrom(segments[0], segments[1..])
  }

  /** The loop of `coalesce_short_transcript_segments`: `previous` is the
      accumulator, `longEnough` the list appended to. */
  method CoalesceShortTranscriptSegments(segments: seq<Segment>) returns (longEnough: seq<Segment>)
    ensures longEnough == Coalesced(segments)
  {
    var previous: Option<Segment> := None;
    longEnough := [];
    for i := 0 to |segments|
      invariant previous.None? <==> i == 0
      invariant previous.None? ==> longEnough == []
      invariant previous.Some? ==> longEnough + CoalesceFrom(previous.value, segments[i..]) == Coalesced(segments)
    {
      var current := segments[i];
      assert segments[i..] == [current] + segments[i + 1..];
      if previous.None? {
        previous := Some(current);
      } else if |previous.value.text| < MinimumTranscriptLen {
        previous := Some(CombineSegments(previous.value, current));
      } else {
        longEnough := longEnough + [previous.value];
        previous := Some(current);
      }
    }
    if previous.Some? {
      longEnough := longEnough + [previous.value];
    }
  }

  /** The texts of `segments` joined with single spaces, `" ".join(...)`. */
  function JoinTexts(segments: seq<Segment>): string
  {
    if segments == [] then ""
    else if |segments| == 1 then segments[0].text
    else segments[0].text + " " + JoinTexts(segments[1..])
  }

  /** Every element but the last reaches the minimum length. */
  ghost predicate LongEnoughButLast(segments: seq<Segment>)
  {
    forall i :: 0 <= i < |segments| - 1 ==> |segments[i].text| >= MinimumTranscriptLen
  }

  /** From an accumulator: between one and `|rest| + 1` results, each but the
      last long enough, the first starting where the accumulator starts and
      the last ending where the input ends. */
  lemma {:induction false} CoalesceFromShape(acc: Segment, rest: seq<Segment>)
    ensures var r := CoalesceFrom(acc, rest);
      && 1 <= |r| <= |rest| + 1
      && LongEnoughButLast(r)
      && r[0].start == acc.start
      && r[|r| - 1].end == (if rest == [] then acc.end else rest[|rest| - 1].end)
    decreases |rest|
  {
    if rest != [] {
      var tail := rest[1..];
      if |acc.text| < MinimumTranscriptLen {
        CoalesceFromShape(CombineSegments(acc, rest[0]), tail);
        if tail != [] {
          assert tail[|tail| - 1] == rest[|rest| - 1];
        }
      } else {
        CoalesceFromShape(rest[0], tail);
        var r' := CoalesceFrom(rest[0], tail);
        var r := [acc] + r';
        assert forall i | 1 <= i < |r| :: r[i] == r'[i - 1];
        if tail != [] {
          assert tail[|tail| - 1] == rest[|rest| - 1];
        }
      }
    }
  }

  /** Joined with single spaces, the results read as the input does. */
  lemma {:induction false} CoalesceFromJoin(acc: Segment, rest: seq<Segment>)
    ensures JoinTexts(CoalesceFrom(acc, rest)) == JoinTexts([acc] + rest)
    decreases |rest|
  {
    if rest != [] {
      var tail := rest[1..];
      assert [acc] + rest == [acc, rest[0]] + tail;
      assert ([acc, rest[0]] + tail)[1..] == [rest[0]] + tail;
      if |acc.text| < MinimumTranscriptLen {
        var merged := CombineSegments(acc, rest[0]);
        CoalesceFromJoin(merged, tail);
        if tail != [] {
          assert ([merged] + tail)[1..] == tail;
          assert ([rest[0]] + tail)[1..] == tail;
        }
      } else {
        CoalesceFromJoin(rest[0], tail);
        CoalesceFromShape(rest[0], tail);
        var r' := CoalesceFrom(rest[0], tail);
        assert ([acc] + r')[1..] == r';
        assert [rest[0]] + tail == rest;
      }
    }
  }

  /** Empty input gives empty output; otherwise the output has at least one
      and at most as many segments as the input. */
  lemma CoalescedCount(segments: seq<Segment>)
    ensures Coalesced(segments) == [] <==> segments == []
    ensures |Coalesced(segments)| <= |segments|
  {
    if segments != [] {
      CoalesceFromShape(segments[0], segments[1..]);
    }
  }

  /** Every output segment but the last has at least 200 characters of text. */
  lemma CoalescedLongEnough(segments: seq<Segment>)
    ensures LongEnoughButLast(Coalesced(segments))
  {
    if segments != [] {
      CoalesceFromShape(segments[0], segments[1..]);
    }
  }

  /** Merging keeps the wording: the space-joined output texts are the
      space-joined input texts, and the first start and last end are kept. */
  lemma CoalescedPreservesTranscript(segments: seq<Segment>)
    requires segments != []
    ensures var r := Coalesced(segments);
      && JoinTexts(r) == JoinTexts(segments)
      && r[0].start == segments[0].start
      && r[|r| - 1].end == segments[|segments| - 1].end
  {
    CoalesceFromShape(segments[0], segments[1..]);
    CoalesceFromJoin(segments[0], segments[1..]);
    assert [segments[0]] + segments[1..] == segments;
  }

  /** A sequence whose every element but the last is long enough passes
      through unchanged. */
  lemma {:induction false} CoalesceFromFixed(acc: Segment, rest: seq<Segment>)
    requires rest == [] || |acc.text| >= MinimumTranscriptLen
    requires LongEnoughButLast([acc] + rest)
    ensures CoalesceFrom(acc, rest) == [acc] + rest
    decreases |rest|
  {
    if rest != [] {
      assert ([acc] + rest)[1..] == rest;
      assert rest[0] == ([acc] + rest)[1];
      assert [rest[0]] + rest[1..] == rest;
      CoalesceFromFixed(rest[0], rest[1..]);
    }
  }

  /** Coalescing is idempotent. */
  lemma CoalesceIdempotent(segments: seq<Segment>)
    ensures Coalesced(Coalesced(segments)) == Coalesced(segments)
  {
    var r := Coalesced(segments);
    CoalescedLongEnough(segments);
    if r != [] {
      assert [r[0]] + r[1..] == r;
      CoalesceFromFixed(r[0], r[1..]);
    }
  }
}
