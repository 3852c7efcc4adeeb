/** The files of one job: where the raw audio, the transcription JSON and the
    PDF of a job live, derived from the job's title slug, and the slug read
    back from a path. */
module Paths {
  import opened Common
  import opened Numerals

  const CacheDir: string := "/cache"
  /** `RAW_AUDIO_DIR`: downloaded or converted source audio. */
  const RawAudioDir: string := "/cache/raw_audio"
  /** `TRANSCRIPTIONS_DIR`: one `{title_slug}.json` per job. */
  const TranscriptionsDir: string := "/cache/transcriptions"

  /** `pathlib.Path(dir) / name`: an absolute name replaces the directory and
      an empty name adds nothing. */
  function JoinPath(dir: string, name: string): string
  {
    if name == [] then dir
    else if name[0] == '/' then name
    else dir + "/" + name
  }

  /** The index of the last occurrence of `c` in `s`, as `str.rfind` finds it. */
  function LastIndexOf(s: string, c: char): (r: Option<nat>)
    ensures r.None? <==> c !in s
    ensures r.Some? ==> r.value < |s| && s[r.value] == c && c !in s[r.value + 1..]
  {
    if s == [] then None
    else if s[|s| - 1] == c then Some(|s| - 1)
    else
      var r := LastIndexOf(s[..|s| - 1], c);
      assert s == s[..|s| - 1] + [s[|s| - 1]];
      if r.Some? then
        assert s[r.value + 1..] == s[..|s| - 1][r.value + 1..] + [s[|s| - 1]];
        r
      else r
  }

  /** `os.path.basename`: what follows the last `/`. */
  function Basename(p: string): string
  {
    match LastIndexOf(p, '/')
    case None => p
    case Some(i) => p[i + 1..]
  }

  /** `name.rsplit('.', 1)[0]`: everything before the last `.`, or the whole
      name when it has none. */
  function StripExtension(name: string): string
  {
    match LastIndexOf(name, '.')
    case None => name
    case Some(i) => name[..i]
  }

  /** `os.path.basename(path).rsplit('.', 1)[0]` (api/main.py). */
  function TitleSlugOf(path: string): string
  {
    StripExtension(Basename(path))
  }

  /** Where the raw audio of a job lives: `RAW_AUDIO_DIR / slug`, with `.mp3`
      appended to its string form when the source is a video (the converter
      writes an mp3 beside the destination path). */
  function AudioFilePath(slug: string, isVideo: bool): string
  {
    if isVideo then JoinPath(RawAudioDir, slug) + ".mp3" else JoinPath(RawAudioDir, slug)
  }

  /** `get_transcript_path`: `TRANSCRIPTIONS_DIR / f"{slug}.json"`. */
  function TranscriptPath(slug: string): string
  {
    JoinPath(TranscriptionsDir, slug + ".json")
  }

  /** `create_pdf` writes `f"{title_slug}.pdf"`, relative to the working directory. */
  function PdfPath(slug: string): string
  {
    slug + ".pdf"
  }

  /** The title slug of the whisper pipeline: `str(unique_id)`. */
  function SlugOfId(uniqueId: int): (slug: string)
    ensures slug != [] && slug[0] != '/'
    ensures '/' !in slug && '.' !in slug
  {
    var s := IntToString(uniqueId);
    assert forall k :: 0 <= k < |s| ==> s[k] == '-' || IsDigit(s[k]);
    s
  }

  /** Characters other than `c` appended after a string do not move its last `c`. */
  lemma {:induction false} LastIndexOfAppend(s: string, q: string, c: char)
    requires c !in q
    ensures LastIndexOf(s + q, c) == LastIndexOf(s, c)
    decreases |q|
  {
    if q == [] {
      assert s + q == s;
    } else {
      var t := s + q;
      assert t[|t| - 1] == q[|q| - 1];
      assert t[..|t| - 1] == s + q[..|q| - 1];
      LastIndexOfAppend(s, q[..|q| - 1], c);
    }
  }

  /** If `c` occurs in `p + [c] + q` only at index `|p|`, that is its last occurrence. */
  lemma LastIndexOfSeparator(p: string, c: char, q: string)
    requires c !in q
    ensures LastIndexOf(p + [c] + q, c) == Some(|p|)
  {
    LastIndexOfAppend(p + [c], q, c);
  }

  /** For a video, the slug read back from the audio path is the job's slug. */
  lemma VideoSlugRoundTrip(slug: string)
    requires slug != [] && '/' !in slug
    ensures TitleSlugOf(AudioFilePath(slug, true)) == slug
  {
    var path := AudioFilePath(slug, true);
    assert path == RawAudioDir + ['/'] + (slug + ".mp3");
    assert '/' !in slug + ".mp3";
    LastIndexOfSeparator(RawAudioDir, '/', slug + ".mp3");
    assert Basename(path) == slug + ".mp3";
    assert slug + ".mp3" == slug + ['.'] + "mp3";
    LastIndexOfSeparator(slug, '.', "mp3");
  }

  /** For an audio source, the slug read back from the audio path is the job's
      slug exactly when the slug has no `.`: otherwise `rsplit` cuts it short. */
  lemma AudioSlugRoundTrip(slug: string)
    requires slug != [] && '/' !in slug
    ensures TitleSlugOf(AudioFilePath(slug, false)) == slug <==> '.' !in slug
  {
    var path := AudioFilePath(slug, false);
    assert path == RawAudioDir + ['/'] + slug;
    LastIndexOfSeparator(RawAudioDir, '/', slug);
    assert Basename(path) == slug;
    var r := LastIndexOf(slug, '.');
    if r.Some? {
      assert |StripExtension(slug)| < |slug|;
    }
  }

  /** The stem of the transcription file's name is the slug. */
  lemma TranscriptPathRoundTrip(slug: string)
    requires '/' !in slug
    ensures TitleSlugOf(TranscriptPath(slug)) == slug
  {
    var name := slug + ".json";
    assert name[0] != '/' by { if slug != [] { assert name[0] == slug[0]; } }
    var path := TranscriptPath(slug);
    assert path == TranscriptionsDir + ['/'] + name;
    assert '/' !in name;
    LastIndexOfSeparator(TranscriptionsDir, '/', name);
    assert Basename(path) == name;
    assert name == slug + ['.'] + "json";
    LastIndexOfSeparator(slug, '.', "json");
  }

  /** The local files a job can leave behind. */
  function JobFiles(slug: string, isVideo: bool): set<string>
  {
    {AudioFilePath(slug, isVideo), TranscriptPath(slug), PdfPath(slug)}
  }

  lemma AppendDistinct(a: string, b: string, x: string)
    requires a != b
    ensures a + x != b + x
  {
    if |a| == |b| {
      var k :| 0 <= k < |a| && a[k] != b[k];
      assert (a + x)[k] == a[k] && (b + x)[k] == b[k];
    }
  }

  lemma PrependDistinct(x: string, a: string, b: string)
    requires a != b
    ensures x + a != x + b
  {
    assert (x + a)[|x|..] == a && (x + b)[|x|..] == b;
  }

  /** The three kinds of job file never coincide, whatever the two slugs:
      the two directories differ at index 7, and a PDF path is relative. */
  lemma KindsDistinct(s: string, t: string, v: bool)
    requires s != [] && s[0] != '/' && t != [] && t[0] != '/'
    ensures AudioFilePath(s, v) != TranscriptPath(t)
    ensures AudioFilePath(s, v) != PdfPath(t) && TranscriptPath(s) != PdfPath(t)
  {
    var x: string := if v then ".mp3" else "";
    var a, j := RawAudioDir + "/" + (s + x), TranscriptionsDir + "/" + (t + ".json");
    assert AudioFilePath(s, v) == a && TranscriptPath(t) == j;
    assert a[7] == 'r' && j[7] == 't';
    assert PdfPath(t)[0] == t[0];
    assert a[0] == '/' && (TranscriptionsDir + "/" + (s + ".json"))[0] == '/';
  }

  /** Files of one kind differ between two different slugs without a dot. */
  lemma SameKindDistinct(si: string, sj: string, vi: bool, vj: bool)
    requires si != sj && si != [] && si[0] != '/' && sj != [] && sj[0] != '/'
    requires '.' !in si && '.' !in sj
    ensures AudioFilePath(si, vi) != AudioFilePath(sj, vj)
    ensures TranscriptPath(si) != TranscriptPath(sj) && PdfPath(si) != PdfPath(sj)
  {
    var rawPrefix := RawAudioDir + "/";
    var xi: string, xj: string := if vi then ".mp3" else "", if vj then ".mp3" else "";
    assert AudioFilePath(si, vi) == rawPrefix + (si + xi) && AudioFilePath(sj, vj) == rawPrefix + (sj + xj);
    if vi == vj {
      AppendDistinct(si, sj, xi);
    } else if vi {
      assert (si + xi)[|si|] == '.';
      assert sj + xj == sj;
    } else {
      assert (sj + xj)[|sj|] == '.';
      assert si + xi == si;
    }
    PrependDistinct(rawPrefix, si + xi, sj + xj);
    AppendDistinct(si, sj, ".json");
    PrependDistinct(TranscriptionsDir + "/", si + ".json", sj + ".json");
    AppendDistinct(si, sj, ".pdf");
  }

  /** Two jobs whose unique ids differ share no local file, whatever their
      video flags: the id is the path discriminator. */
  lemma JobFilesDisjoint(i: int, j: int, vi: bool, vj: bool)
    requires i != j
    ensures JobFiles(SlugOfId(i), vi) !! JobFiles(SlugOfId(j), vj)
  {
    var si, sj := SlugOfId(i), SlugOfId(j);
    IntToStringInjective(i, j);
    SameKindDistinct(si, sj, vi, vj);
    KindsDistinct(si, sj, vi);
    KindsDistinct(sj, si, vj);
  }
}
