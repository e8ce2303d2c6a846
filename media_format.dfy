/**
 * `MediaFormat` (src/stream/media_format.rs): the container or codec of a
 * live segment, the file extension used for it, and the mapping from the
 * `format_name` that ffprobe reports to a format.
 */
module MediaFormats {
  import opened Wrappers
  import opened Text
  import opened Errors

  datatype MediaFormat = MpegTs | FMp4 | Aac | Adts | Mp3 | Ac3 | EAc3 | WebVtt | Unknown

  /** `MediaFormat::extension`: an unknown format is saved as `ts`. */
  function Extension(f: MediaFormat): (ext: string)
    ensures f == MpegTs ==> ext == "ts"
    ensures f == FMp4 ==> ext == "mp4"
    ensures f == Aac ==> ext == "m4a"
    ensures f == Adts ==> ext == "aac"
    ensures f == Mp3 ==> ext == "mp3"
    ensures f == Ac3 ==> ext == "ac3"
    ensures f == EAc3 ==> ext == "eac3"
    ensures f == WebVtt ==> ext == "vtt"
    ensures f == Unknown ==> ext == "ts"
    ensures ext in {"ts", "mp4", "m4a", "aac", "mp3", "ac3", "eac3", "vtt"}
  {
    match f
    case MpegTs => "ts"
    case FMp4 => "mp4"
    case Aac => "m4a"
    case Adts => "aac"
    case Mp3 => "mp3"
    case Ac3 => "ac3"
    case EAc3 => "eac3"
    case WebVtt => "vtt"
    case Unknown => "ts"
  }

  /** Two formats share an extension only when one is `MpegTs` and the other `Unknown`. */
  lemma ExtensionsDistinct(a: MediaFormat, b: MediaFormat)
    requires a != b && Extension(a) == Extension(b)
    ensures (a == MpegTs && b == Unknown) || (a == Unknown && b == MpegTs)
  {
  }

  /** The ffprobe `format_name` of the four formats `detect` recognises. */
  const MPEGTS_NAME: string := "mpegts"
  const MP3_NAME: string := "mp3"
  const FMP4_NAME: string := "mov,mp4,m4a,3gp,3g2,mj2"
  const WEBVTT_NAME: string := "webvtt"

  /** The `match` on the trimmed `format_name` inside `MediaFormat::detect`. */
  function FromFormatName(name: string): (f: MediaFormat)
    ensures f != Aac && f != Adts && f != Ac3 && f != EAc3
    ensures f == Unknown <==> Trim(name) !in {MPEGTS_NAME, MP3_NAME, FMP4_NAME, WEBVTT_NAME}
  {
    var t := Trim(name);
    if t == MPEGTS_NAME then MpegTs
    else if t == MP3_NAME then Mp3
    else if t == FMP4_NAME then FMp4
    else if t == WEBVTT_NAME then WebVtt
    else Unknown
  }

  /** Each recognised name, with any surrounding whitespace, maps to its format. */
  lemma FormatNamesRecognised(pad: string)
    requires forall k :: 0 <= k < |pad| ==> IsWhitespace(pad[k])
    ensures FromFormatName(pad + MPEGTS_NAME + pad) == MpegTs
    ensures FromFormatName(pad + MP3_NAME + pad) == Mp3
    ensures FromFormatName(pad + FMP4_NAME + pad) == FMp4
    ensures FromFormatName(pad + WEBVTT_NAME + pad) == WebVtt
  {
    MpegTsRecognised(pad);
    Mp3Recognised(pad);
    FMp4Recognised(pad);
    WebVttRecognised(pad);
  }

  lemma MpegTsRecognised(pad: string)
    requires forall k :: 0 <= k < |pad| ==> IsWhitespace(pad[k])
    ensures FromFormatName(pad + MPEGTS_NAME + pad) == MpegTs
  {
    TrimPadded(pad, MPEGTS_NAME);
  }

  lemma Mp3Recognised(pad: string)
    requires forall k :: 0 <= k < |pad| ==> IsWhitespace(pad[k])
    ensures FromFormatName(pad + MP3_NAME + pad) == Mp3
  {
    TrimPadded(pad, MP3_NAME);
  }

  lemma FMp4Recognised(pad: string)
    requires forall k :: 0 <= k < |pad| ==> IsWhitespace(pad[k])
    ensures FromFormatName(pad + FMP4_NAME + pad) == FMp4
  {
    TrimPadded(pad, FMP4_NAME);
  }

  lemma WebVttRecognised(pad: string)
    requires forall k :: 0 <= k < |pad| ==> IsWhitespace(pad[k])
    ensures FromFormatName(pad + WEBVTT_NAME + pad) == WebVtt
  {
    TrimPadded(pad, WEBVTT_NAME);
  }

  lemma TrimPadded(pad: string, name: string)
    requires forall k :: 0 <= k < |pad| ==> IsWhitespace(pad[k])
    requires |name| > 0 && !IsWhitespace(name[0]) && !IsWhitespace(name[|name| - 1])
    ensures Trim(pad + name + pad) == name
  {
    TrimStartPadded(pad, name + pad);
    assert pad + name + pad == pad + (name + pad);
    TrimEndPadded(name, pad);
  }

  lemma {:induction false} TrimStartPadded(pad: string, rest: string)
    requires forall k :: 0 <= k < |pad| ==> IsWhitespace(pad[k])
    requires |rest| > 0 && !IsWhitespace(rest[0])
    ensures TrimStart(pad + rest) == rest
    decreases |pad|
  {
    if pad != [] {
      assert (pad + rest)[0] == pad[0] && IsWhitespace(pad[0]);
      assert (pad + rest)[1..] == pad[1..] + rest;
      assert TrimStart(pad + rest) == TrimStart(pad[1..] + rest);
      TrimStartPadded(pad[1..], rest);
    } else {
      assert pad + rest == rest;
    }
  }

  lemma {:induction false} TrimEndPadded(name: string, pad: string)
    requires forall k :: 0 <= k < |pad| ==> IsWhitespace(pad[k])
    requires |name| > 0 && !IsWhitespace(name[|name| - 1])
    ensures TrimEnd(name + pad) == name
    decreases |pad|
  {
    if pad != [] {
      var init := pad[..|pad| - 1];
      assert (name + pad)[..|name + pad| - 1] == name + init;
      TrimEndPadded(name, init);
    } else {
      assert name + pad == name;
    }
  }

  /**
   * What running ffprobe produced: the process could not be driven, or it
   * exited (successfully or not) and its output did or did not parse as the
   * expected JSON, giving the `format_name`.
   */
  datatype ProbeRun =
    | ProbeFailed(message: string)
    | ProbeExited(success: bool, formatName: Option<string>)

  /**
   * `MediaFormat::detect` after the subprocess: a failing exit or an
   * unparsable report is `Unknown`, never an error.
   */
  function Detect(run: ProbeRun): (r: Result<MediaFormat, VideoError>)
    ensures r.Err? <==> run.ProbeFailed?
    ensures run.ProbeFailed? ==> r == Err(ChildProcessError(run.message))
    ensures run.ProbeExited? && (!run.success || run.formatName.None?) ==> r == Ok(Unknown)
    ensures r.Ok? && r.value != Unknown ==> run.ProbeExited? && run.success && run.formatName.Some?
    ensures r.Ok? ==> r.value != Aac && r.value != Adts && r.value != Ac3 && r.value != EAc3
  {
    match run
    case ProbeFailed(message) => Err(ChildProcessError(message))
    case ProbeExited(success, formatName) =>
      if !success then Ok(Unknown)
      else if formatName.None? then Ok(Unknown)
      else Ok(FromFormatName(formatName.value))
  }
}
