/** The silence segmenter (`split_silences`): the `silencedetect` log of the
    recording is read line by line; every `silence_end` line proposes a split in
    the middle of the silence, accepted only when the chunk before it is long
    enough; a trailing chunk up to the end of the recording closes the
    sequence when it is long enough and of positive length. */
module Silence {
  import opened Common
  import opened Numerals

  /** `MIN_SEGMENT_LENGTH`, the default minimum chunk length in seconds. */
  const MinSegmentLength: real := 30.0
  /** `MIN_SILENCE_LENGTH`, the `d` parameter of `silencedetect`. */
  const MinSilenceLength: real := 1.0
  /** `SILENCE_DB`, the `n` parameter of `silencedetect`. */
  const SilenceDb: string := "-10dB"

  // ---------------------------------------------------------------------------
  // The line matcher: the `silence_end` pattern, two labelled numerals,
  // searched for anywhere in the line, as a scanner.
  // ---------------------------------------------------------------------------

  const SilenceEndLabel: string := " silence_end: "
  const SilenceDurationLabel: string := " | silence_duration: "

  /** The strings `[0-9]+(\.?[0-9]*)` matches: digits, then optionally a dot
      followed by digits only. */
  predicate IsNumeral(t: string)
  {
    && |t| > 0
    && IsDigit(t[0])
    && forall i :: 0 <= i < |t| ==> IsDigit(t[i]) || (t[i] == '.' && AllDigits(t[i + 1..]))
  }

  /** The end of the run of digits of `s` that starts at `i`. */
  function DigitsEnd(s: string, i: nat): (j: nat)
    requires i <= |s|
    ensures i <= j <= |s| && AllDigits(s[i..j])
    ensures j == |s| || !IsDigit(s[j])
    decreases |s| - i
  {
    if i < |s| && IsDigit(s[i]) then
      var j := DigitsEnd(s, i + 1);
      j
    else i
  }

  /** A run of digits ending before a non-digit is the one `DigitsEnd` finds. */
  lemma DigitsEndUnique(s: string, i: nat, k: nat)
    requires i <= k <= |s| && AllDigits(s[i..k]) && (k == |s| || !IsDigit(s[k]))
    ensures DigitsEnd(s, i) == k
  {
    var j := DigitsEnd(s, i);
    assert forall m | i <= m < k :: s[m] == s[i..k][m - i];
    assert forall m | i <= m < j :: s[m] == s[i..j][m - i];
  }

  /** The longest numeral with a fractional part: digits, a dot, digits. */
  lemma FractionNumeral(s: string, i: nat, j: nat, k: nat)
    requires i < j < k <= |s| && s[j] == '.'
    requires AllDigits(s[i..j]) && AllDigits(s[j + 1..k]) && (k == |s| || !IsDigit(s[k]))
    ensures IsNumeral(s[i..k])
    ensures k < |s| ==> !IsNumeral(s[i..k + 1])
  {
    var t := s[i..k];
    assert forall m | 0 <= m < |t| && m != j - i :: IsDigit(t[m]) by {
      forall m | 0 <= m < |t| && m != j - i ensures IsDigit(t[m]) {
        if m < j - i { assert t[m] == s[i..j][m]; } else { assert t[m] == s[j + 1..k][m - (j - i) - 1]; }
      }
    }
    assert t[j - i + 1..] == s[j + 1..k];
    assert t[0] == s[i..j][0];
    if k < |s| {
      var t' := s[i..k + 1];
      assert t'[j - i] == '.' && t'[k - i] == s[k];
      assert !AllDigits(t'[j - i + 1..]) by {
        assert t'[j - i + 1..][k - j - 1] == s[k];
      }
    }
  }

  /** The longest numeral without a fractional part: digits not followed by a dot. */
  lemma IntegerNumeral(s: string, i: nat, j: nat)
    requires i < j <= |s| && AllDigits(s[i..j]) && (j == |s| || (!IsDigit(s[j]) && s[j] != '.'))
    ensures IsNumeral(s[i..j])
    ensures j < |s| ==> !IsNumeral(s[i..j + 1])
  {
    assert s[i..j][0] == s[i];
    if j < |s| {
      assert s[i..j + 1][j - i] == s[j];
    }
  }

  /** The end of the greedy match of a numeral at `i`, if there is one: the
      longest numeral that starts at `i`. */
  function NumeralEnd(s: string, i: nat): (r: Option<nat>)
    requires i <= |s|
    ensures r.None? <==> (i == |s| || !IsDigit(s[i]))
    ensures r.Some? ==> i < r.value <= |s| && IsNumeral(s[i..r.value])
    ensures r.Some? && r.value < |s| ==> !IsNumeral(s[i..r.value + 1])
  {
    var j := DigitsEnd(s, i);
    if j == i then
      None
    else if j < |s| && s[j] == '.' then
      var k := DigitsEnd(s, j + 1);
      FractionNumeral(s, i, j, k);
      Some(k)
    else
      IntegerNumeral(s, i, j);
      Some(j)
  }

  /** A numeral followed by neither a digit nor a dot is exactly what the
      greedy match at its start takes. */
  lemma NumeralEndAt(s: string, i: nat, e: string)
    requires i + |e| <= |s| && s[i..i + |e|] == e && IsNumeral(e)
    requires i + |e| == |s| || (!IsDigit(s[i + |e|]) && s[i + |e|] != '.')
    ensures NumeralEnd(s, i) == Some(i + |e|)
  {
    var n := |e|;
    var p := DigitsEnd(e, 0);
    assert e[0..p] == e[..p];
    SubSlice(s, i, e, 0, p);
    if p == n {
      IntegerAt(s, i, n);
    } else {
      assert e[p] == '.' && AllDigits(e[p + 1..]);
      SubSlice(s, i, e, p, p + 1);
      assert s[i + p] == s[i + p..i + p + 1][0] == e[p..p + 1][0];
      SubSlice(s, i, e, p + 1, n);
      assert e[p + 1..n] == e[p + 1..];
      FractionAt(s, i, p, n);
    }
  }

  lemma IntegerAt(s: string, i: nat, n: nat)
    requires 0 < n && i + n <= |s| && AllDigits(s[i..i + n])
    requires i + n == |s| || (!IsDigit(s[i + n]) && s[i + n] != '.')
    ensures NumeralEnd(s, i) == Some(i + n)
  {
    DigitsEndUnique(s, i, i + n);
  }

  lemma FractionAt(s: string, i: nat, p: nat, n: nat)
    requires 0 < p < n && i + n <= |s| && AllDigits(s[i..i + p]) && s[i + p] == '.'
    requires AllDigits(s[i + p + 1..i + n])
    requires i + n == |s| || (!IsDigit(s[i + n]) && s[i + n] != '.')
    ensures NumeralEnd(s, i) == Some(i + n)
  {
    DigitsEndUnique(s, i, i + p);
    DigitsEndUnique(s, i + p + 1, i + n);
  }

  /** The value of a numeral: `float(t)`, computed exactly. */
  function NumeralValue(t: string): (v: real)
    requires IsNumeral(t)
    ensures v >= 0.0
  {
    var k := DigitsEnd(t, 0);
    assert t[0..k] == t[..k];
    if k == |t| then
      DigitsValue(t[..k]) as real
    else
      assert t[k] == '.';
      DigitsValue(t[..k]) as real + DigitsValue(t[k + 1..]) as real / Pow10(|t| - k - 1)
  }

  function Pow10(n: nat): (r: real)
    ensures r >= 1.0
  {
    if n == 0 then 1.0 else 10.0 * Pow10(n - 1)
  }

  /** `end` and `dur` as captured by the regular expression at `pos`. */
  datatype SilenceMatch = SilenceMatch(pos: nat, end: string, dur: string)

  /** The line holds, at `pos`, the pattern with `end` and `dur` as its numbers. */
  ghost predicate OccursAt(line: string, pos: nat, end: string, dur: string)
  {
    var text := SilenceEndLabel + end + SilenceDurationLabel + dur;
    && IsNumeral(end) && IsNumeral(dur)
    && pos + |text| <= |line|
    && line[pos..pos + |text|] == text
  }

  /** The regular expression anchored at `pos`. */
  function MatchAt(line: string, pos: nat): (r: Option<SilenceMatch>)
    requires pos <= |line|
    ensures r.Some? ==> r.value.pos == pos && OccursAt(line, pos, r.value.end, r.value.dur)
  {
    var a := pos + |SilenceEndLabel|;
    if a <= |line| && line[pos..a] == SilenceEndLabel then
      match NumeralEnd(line, a)
      case None => None
      case Some(b) =>
        var c := b + |SilenceDurationLabel|;
        if c <= |line| && line[b..c] == SilenceDurationLabel then
          match NumeralEnd(line, c)
          case None => None
          case Some(d) =>
            OccursAtPieces(line, pos, a, b, c, d);
            Some(SilenceMatch(pos, line[a..b], line[c..d]))
        else None
    else None
  }

  /** Labels and numerals side by side form an occurrence. */
  lemma OccursAtPieces(line: string, pos: nat, a: nat, b: nat, c: nat, d: nat)
    requires pos <= a <= b <= c <= d <= |line|
    requires line[pos..a] == SilenceEndLabel && line[b..c] == SilenceDurationLabel
    requires IsNumeral(line[a..b]) && IsNumeral(line[c..d])
    ensures OccursAt(line, pos, line[a..b], line[c..d])
  {
    var text := SilenceEndLabel + line[a..b] + SilenceDurationLabel + line[c..d];
    SliceSplit(line, pos, a, b);
    SliceSplit(line, pos, b, c);
    SliceSplit(line, pos, c, d);
    assert text == line[pos..d];
  }

  lemma SliceSplit(s: string, i: nat, j: nat, k: nat)
    requires i <= j <= k <= |s|
    ensures s[i..k] == s[i..j] + s[j..k]
  {
  }

  /** An occurrence of the pattern at `pos` is matched there: the `end` group
      is the occurrence's own, the `dur` group the longest numeral at its place. */
  lemma MatchAtComplete(line: string, pos: nat, end: string, dur: string)
    requires OccursAt(line, pos, end, dur)
    ensures MatchAt(line, pos).Some? && MatchAt(line, pos).value.end == end
  {
    var a := pos + |SilenceEndLabel|;
    var b := a + |end|;
    var c := b + |SilenceDurationLabel|;
    OccursAtLayout(line, pos, end, dur);
    assert line[b] == line[b..c][0];
    NumeralEndAt(line, a, end);
    MatchAtPieces(line, pos, b, c);
  }

  /** Where the labels and numbers of an occurrence lie in the line. */
  lemma OccursAtLayout(line: string, pos: nat, end: string, dur: string)
    requires OccursAt(line, pos, end, dur)
    ensures pos + |SilenceEndLabel| + |end| + |SilenceDurationLabel| < |line|
    ensures line[pos..pos + |SilenceEndLabel|] == SilenceEndLabel
    ensures line[pos + |SilenceEndLabel|..pos + |SilenceEndLabel| + |end|] == end
    ensures var b := pos + |SilenceEndLabel| + |end|;
      line[b..b + |SilenceDurationLabel|] == SilenceDurationLabel
    ensures line[pos + |SilenceEndLabel| + |end| + |SilenceDurationLabel|] == dur[0]
  {
    var text := SilenceEndLabel + end + SilenceDurationLabel + dur;
    var p, q := |SilenceEndLabel|, |SilenceEndLabel| + |end|;
    var r := q + |SilenceDurationLabel|;
    assert text[..p] == SilenceEndLabel && text[p..q] == end && text[q..r] == SilenceDurationLabel;
    SubSlice(line, pos, text, 0, p);
    SubSlice(line, pos, text, p, q);
    SubSlice(line, pos, text, q, r);
    SubSlice(line, pos, text, r, r + 1);
    assert text[r] == dur[0];
  }

  /** The anchored match succeeds once both labels are in place, the first
      numeral ends at `b` and a digit starts the second. */
  lemma MatchAtPieces(line: string, pos: nat, b: nat, c: nat)
    requires pos + |SilenceEndLabel| <= |line| && line[pos..pos + |SilenceEndLabel|] == SilenceEndLabel
    requires pos + |SilenceEndLabel| <= |line| && NumeralEnd(line, pos + |SilenceEndLabel|) == Some(b)
    requires c == b + |SilenceDurationLabel| && c < |line| && line[b..c] == SilenceDurationLabel
    requires IsDigit(line[c])
    ensures MatchAt(line, pos).Some? && MatchAt(line, pos).value.end == line[pos + |SilenceEndLabel|..b]
  {
  }

  lemma SubSlice(s: string, i: nat, t: string, j: nat, k: nat)
    requires i + |t| <= |s| && s[i..i + |t|] == t && j <= k <= |t|
    ensures s[i + j..i + k] == t[j..k]
  {
    forall m | 0 <= m < k - j ensures s[i + j..i + k][m] == t[j..k][m] {
      assert s[i + j + m] == s[i..i + |t|][j + m];
    }
  }

  /** `re.search` from `pos` on: the leftmost occurrence. */
  function SearchFrom(line: string, pos: nat): (r: Option<SilenceMatch>)
    requires pos <= |line|
    ensures r.Some? ==> pos <= r.value.pos <= |line| && OccursAt(line, r.value.pos, r.value.end, r.value.dur)
    decreases |line| - pos
  {
    match MatchAt(line, pos)
    case Some(m) => Some(m)
    case None => if pos == |line| then None else SearchFrom(line, pos + 1)
  }

  /** `silence_end_re.search(line)`. */
  function MatchSilenceEnd(line: string): (r: Option<SilenceMatch>)
    ensures r.Some? ==> OccursAt(line, r.value.pos, r.value.end, r.value.dur)
  {
    SearchFrom(line, 0)
  }

  lemma {:induction false} SearchFromComplete(line: string, pos: nat, k: nat, end: string, dur: string)
    requires pos <= k && OccursAt(line, k, end, dur)
    ensures SearchFrom(line, pos).Some? && SearchFrom(line, pos).value.pos <= k
    decreases k - pos
  {
    if pos == k {
      MatchAtComplete(line, k, end, dur);
    } else if MatchAt(line, pos).None? {
      SearchFromComplete(line, pos + 1, k, end, dur);
    }
  }

  /** A line is taken as a silence report exactly when it contains
      ` silence_end: <num> | silence_duration: <num>`; the match is the leftmost. */
  lemma MatchSilenceEndExact(line: string)
    ensures MatchSilenceEnd(line).Some? <==> exists k: nat, e, d :: OccursAt(line, k, e, d)
    ensures forall k: nat, e, d :: OccursAt(line, k, e, d) ==>
              MatchSilenceEnd(line).Some? && MatchSilenceEnd(line).value.pos <= k
  {
    forall k: nat, e, d | OccursAt(line, k, e, d)
      ensures MatchSilenceEnd(line).Some? && MatchSilenceEnd(line).value.pos <= k
    {
      SearchFromComplete(line, 0, k, e, d);
    }
  }

  // ---------------------------------------------------------------------------
  // The split logic.
  // ---------------------------------------------------------------------------

  /** `split_at = float(silence_end) - float(silence_dur) / 2`: the middle of the silence. */
  function SplitPoint(m: SilenceMatch): real
    requires IsNumeral(m.end) && IsNumeral(m.dur)
  {
    NumeralValue(m.end) - NumeralValue(m.dur) / 2.0
  }

  /** The split point of a log line that reports the end of a silence. */
  function SilenceSplit(line: string): Option<real>
  {
    match MatchSilenceEnd(line)
    case None => None
    case Some(m) => Some(SplitPoint(m))
  }

  /** The chunks the loop has yielded and the `cur_start` it ends with. */
  datatype ScanState = ScanState(splits: seq<Boundary>, curStart: real)

  /** The `while True` loop over the log from `curStart` on; `readline`
      returning `""` ends the stream, so an empty line stops the scan. */
  function Scan(lines: seq<string>, curStart: real, minLen: real): ScanState
    decreases |lines|
  {
    if lines == [] || lines[0] == "" then ScanState([], curStart)
    else
      match MatchSilenceEnd(lines[0])
      case None => Scan(lines[1..], curStart, minLen)
      case Some(m) =>
        var splitAt := SplitPoint(m);
        if splitAt - curStart < minLen then Scan(lines[1..], curStart, minLen)
        else
          var s := Scan(lines[1..], splitAt, minLen);
          ScanState([Boundary(curStart, splitAt)] + s.splits, s.curStart)
  }

  /** Whether the trailing chunk `(cur_start, duration)` is yielded. */
  predicate TrailingAccepted(curStart: real, duration: real, minLen: real)
  {
    duration > curStart && duration - curStart > minLen
  }

  /** Everything `split_silences` yields for a log and a probed duration. */
  function SplitSilences(lines: seq<string>, duration: real, minLen: real): seq<Boundary>
  {
    var s := Scan(lines, 0.0, minLen);
    if TrailingAccepted(s.curStart, duration, minLen) then s.splits + [Boundary(s.curStart, duration)]
    else s.splits
  }

  /** `readline()` on the log: the next line, or `""` once it is exhausted. */
  function ReadLine(lines: seq<string>, i: nat): string
  {
    if i < |lines| then lines[i] else ""
  }

  /** The generator `split_silences`, given the lines of the `silencedetect`
      log and the duration `ffmpeg.probe` reports; `numSegments` is the count it logs. */
  method SplitSilencesStream(lines: seq<string>, duration: real, minSegmentLength: real)
    returns (segments: seq<Boundary>, numSegments: nat)
    ensures segments == SplitSilences(lines, duration, minSegmentLength)
    ensures numSegments == |segments|
  {
    ghost var whole := Scan(lines, 0.0, minSegmentLength);
    var curStart := 0.0;
    numSegments := 0;
    segments := [];
    var i := 0;
    while true
      invariant 0 <= i <= |lines|
      invariant numSegments == |segments|
      invariant segments + Scan(lines[i..], curStart, minSegmentLength).splits == whole.splits
      invariant Scan(lines[i..], curStart, minSegmentLength).curStart == whole.curStart
      decreases |lines| - i
    {
      var line := ReadLine(lines, i);
      if line == "" {
        ScanStops(lines, i, curStart, minSegmentLength);
        AppendNone(segments);
        break;
      }
      var split := SilenceSplit(line);
      if split.Some? {
        var splitAt := split.value;
        if splitAt - curStart < minSegmentLength {
          ScanSkips(lines, i, curStart, minSegmentLength);
          i := i + 1;
          continue;
        }
        ScanSplits(lines, i, curStart, minSegmentLength, splitAt);
        AppendOne(segments, Boundary(curStart, splitAt), Scan(lines[i + 1..], splitAt, minSegmentLength).splits);
        segments := segments + [Boundary(curStart, splitAt)];
        curStart := splitAt;
        numSegments := numSegments + 1;
      } else {
        ScanSkips(lines, i, curStart, minSegmentLength);
      }
      i := i + 1;
    }
    assert SplitSilences(lines, duration, minSegmentLength) ==
      if TrailingAccepted(curStart, duration, minSegmentLength) then segments + [Boundary(curStart, duration)] else segments;
    // silencedetect can report a silence end past the end of the audio: a
    // trailing chunk of negative length, or one too short, is dropped.
    if duration > curStart && duration - curStart > minSegmentLength {
      segments := segments + [Boundary(curStart, duration)];
      numSegments := numSegments + 1;
    }
  }

  /** Moving one chunk from the front of the rest to the end of those yielded. */
  lemma AppendOne(done: seq<Boundary>, b: Boundary, rest: seq<Boundary>)
    ensures (done + [b]) + rest == done + ([b] + rest)
  {
  }

  /** Nothing left to yield. */
  lemma AppendNone(done: seq<Boundary>)
    ensures done + [] == done
  {
  }

  /** The scan of an exhausted log, or of one whose next line is empty, yields nothing. */
  lemma ScanStops(lines: seq<string>, i: nat, curStart: real, minLen: real)
    requires i <= |lines| && ReadLine(lines, i) == ""
    ensures Scan(lines[i..], curStart, minLen).splits == []
    ensures Scan(lines[i..], curStart, minLen).curStart == curStart
  {
  }

  /** A line that is not a silence end, or whose split point is too close to
      `curStart`, leaves the scan of the rest unchanged. */
  lemma ScanSkips(lines: seq<string>, i: nat, curStart: real, minLen: real)
    requires i < |lines| && lines[i] != ""
    requires SilenceSplit(lines[i]).Some? ==> SilenceSplit(lines[i]).value - curStart < minLen
    ensures Scan(lines[i..], curStart, minLen) == Scan(lines[i + 1..], curStart, minLen)
  {
    assert lines[i..][0] == lines[i] && lines[i..][1..] == lines[i + 1..];
  }

  /** A silence end far enough from `curStart` yields the chunk up to its
      split point, and the scan goes on from there. */
  lemma ScanSplits(lines: seq<string>, i: nat, curStart: real, minLen: real, splitAt: real)
    requires i < |lines| && lines[i] != "" && SilenceSplit(lines[i]) == Some(splitAt)
    requires splitAt - curStart >= minLen
    ensures Scan(lines[i..], curStart, minLen).splits ==
      [Boundary(curStart, splitAt)] + Scan(lines[i + 1..], splitAt, minLen).splits
    ensures Scan(lines[i..], curStart, minLen).curStart == Scan(lines[i + 1..], splitAt, minLen).curStart
  {
    assert lines[i..][0] == lines[i] && lines[i..][1..] == lines[i + 1..];
  }

  // ---------------------------------------------------------------------------
  // Properties of the chunks.
  // ---------------------------------------------------------------------------

  /** Each chunk starts where the one before it ends. */
  ghost predicate Contiguous(bs: seq<Boundary>)
  {
    forall i :: 0 <= i < |bs| - 1 ==> bs[i].end == bs[i + 1].start
  }

  /** Every chunk is at least `minLen` long. */
  ghost predicate AtLeast(bs: seq<Boundary>, minLen: real)
  {
    forall i :: 0 <= i < |bs| ==> bs[i].end - bs[i].start >= minLen
  }

  /** Where the chunks end: the end of the last one, or 0 when there is none. */
  function CoveredUntil(bs: seq<Boundary>): real
  {
    if bs == [] then 0.0 else bs[|bs| - 1].end
  }

  lemma {:induction false} ScanChain(lines: seq<string>, curStart: real, minLen: real)
    ensures var s := Scan(lines, curStart, minLen);
      && (s.splits == [] ==> s.curStart == curStart)
      && (s.splits != [] ==> s.splits[0].start == curStart && s.splits[|s.splits| - 1].end == s.curStart)
      && Contiguous(s.splits)
      && AtLeast(s.splits, minLen)
    decreases |lines|
  {
    if lines != [] && lines[0] != "" {
      match MatchSilenceEnd(lines[0])
      case None => ScanChain(lines[1..], curStart, minLen);
      case Some(m) =>
        var splitAt := SplitPoint(m);
        if splitAt - curStart < minLen {
          ScanChain(lines[1..], curStart, minLen);
        } else {
          ScanChain(lines[1..], splitAt, minLen);
          var s := Scan(lines[1..], splitAt, minLen);
          assert Scan(lines, curStart, minLen) == ScanState([Boundary(curStart, splitAt)] + s.splits, s.curStart);
          ChainPrepend(Boundary(curStart, splitAt), s.splits, minLen);
        }
    }
  }

  /** A long enough chunk ending where a chain starts extends the chain. */
  lemma ChainPrepend(b: Boundary, rest: seq<Boundary>, minLen: real)
    requires Contiguous(rest) && AtLeast(rest, minLen) && b.end - b.start >= minLen
    requires rest != [] ==> rest[0].start == b.end
    ensures Contiguous([b] + rest) && AtLeast([b] + rest, minLen)
  {
    var r := [b] + rest;
    assert forall i | 1 <= i < |r| :: r[i] == rest[i - 1];
  }

  /** The chunks start at 0, follow each other without gap or overlap, and
      each is at least `minLen` long. */
  lemma SplitSilencesContiguous(lines: seq<string>, duration: real, minLen: real)
    ensures var r := SplitSilences(lines, duration, minLen);
      && (r != [] ==> r[0].start == 0.0)
      && Contiguous(r)
      && AtLeast(r, minLen)
  {
    ScanChain(lines, 0.0, minLen);
  }

  lemma {:induction false} ChainOrdered(bs: seq<Boundary>, i: nat, j: nat)
    requires Contiguous(bs)
    requires forall k :: 0 <= k < |bs| ==> bs[k].start < bs[k].end
    requires i < j < |bs|
    ensures bs[i].end <= bs[j].start
    decreases j - i
  {
    if j > i + 1 {
      ChainOrdered(bs, i, j - 1);
    }
  }

  /** With a positive minimum length the chunks are strictly increasing and
      never overlap. */
  lemma SplitSilencesIncreasing(lines: seq<string>, duration: real, minLen: real)
    requires minLen > 0.0
    ensures var r := SplitSilences(lines, duration, minLen);
      forall i, j :: 0 <= i < j < |r| ==> r[i].start < r[j].start && r[i].end <= r[j].start
  {
    var r := SplitSilences(lines, duration, minLen);
    SplitSilencesContiguous(lines, duration, minLen);
    forall i, j | 0 <= i < j < |r| ensures r[i].start < r[j].start && r[i].end <= r[j].start {
      ChainOrdered(r, i, j);
    }
  }

  /** The chunks reach the end of the recording, or they leave uncovered a
      tail no longer than `minLen`: a short last stretch of audio is dropped. */
  lemma UncoveredTailAtMostMinimum(lines: seq<string>, duration: real, minLen: real)
    requires minLen >= 0.0
    ensures var r := SplitSilences(lines, duration, minLen);
      CoveredUntil(r) == duration || duration - CoveredUntil(r) <= minLen
  {
    ScanChain(lines, 0.0, minLen);
  }

  /** When no split is accepted, the whole recording is one chunk if it is
      longer than `minLen`, and there is no chunk at all otherwise. */
  lemma NoSplitsWholeFile(lines: seq<string>, duration: real, minLen: real)
    requires minLen >= 0.0
    requires Scan(lines, 0.0, minLen).splits == []
    ensures SplitSilences(lines, duration, minLen) ==
              if duration > minLen then [Boundary(0.0, duration)] else []
  {
    ScanChain(lines, 0.0, minLen);
  }

  /** A non-empty line that is no silence report changes nothing, wherever it
      stands before the end of the stream. */
  lemma {:induction false} IgnoredLine(pre: seq<string>, line: string, post: seq<string>, curStart: real, minLen: real)
    requires "" !in pre && line != "" && MatchSilenceEnd(line).None?
    ensures Scan(pre + [line] + post, curStart, minLen) == Scan(pre + post, curStart, minLen)
    decreases |pre|
  {
    if pre == [] {
      assert pre + [line] + post == [line] + post;
      assert ([line] + post)[1..] == post;
      assert pre + post == post;
    } else {
      var a, b := pre + [line] + post, pre + post;
      assert a[0] == pre[0] && b[0] == pre[0];
      assert a[1..] == pre[1..] + [line] + post;
      assert b[1..] == pre[1..] + post;
      match MatchSilenceEnd(pre[0])
      case None => IgnoredLine(pre[1..], line, post, curStart, minLen);
      case Some(m) =>
        var splitAt := SplitPoint(m);
        if splitAt - curStart < minLen {
          IgnoredLine(pre[1..], line, post, curStart, minLen);
        } else {
          IgnoredLine(pre[1..], line, post, splitAt, minLen);
        }
    }
  }

  /** The tail after the last accepted split is dropped when it is not longer
      than `minLen`: the chunks are exactly the accepted splits, and they stop
      short of the end of the recording. */
  lemma {:induction false} TailDroppedAfterLastSplit(lines: seq<string>, duration: real, minLen: real)
    ensures var s := Scan(lines, 0.0, minLen);
      s.curStart < duration <= s.curStart + minLen ==>
        SplitSilences(lines, duration, minLen) == s.splits && CoveredUntil(s.splits) == s.curStart < duration
  {
    ScanChain(lines, 0.0, minLen);
  }

  /** An instance of `TailDroppedAfterLastSplit`: a one-report log whose
      split lands less than `minLen` before the end yields one chunk that
      stops short of the end. */
  lemma OneReportTailDropped(line: string, duration: real, minLen: real)
    requires line != "" && MatchSilenceEnd(line).Some?
    requires SplitPoint(MatchSilenceEnd(line).value) >= minLen
    requires SplitPoint(MatchSilenceEnd(line).value) < duration <= SplitPoint(MatchSilenceEnd(line).value) + minLen
    ensures var c := SplitPoint(MatchSilenceEnd(line).value);
      SplitSilences([line], duration, minLen) == [Boundary(0.0, c)] && c < duration
  {
    var m := MatchSilenceEnd(line).value;
    var c := SplitPoint(m);
    assert [line][1..] == [];
    assert Scan([], c, minLen) == ScanState([], c);
    assert Scan([line], 0.0, minLen) == ScanState([Boundary(0.0, c)], c);
    assert !TrailingAccepted(c, duration, minLen);
  }

  /** A recording of 20 seconds in which no silence is reported yields no
      chunk at all with the default minimum of 30 seconds. */
  lemma ShortRecordingYieldsNothing()
    ensures SplitSilences([], 20.0, MinSegmentLength) == []
  {
  }
}
