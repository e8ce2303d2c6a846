/**
 * The format catalogue: mime types and their codecs, the raw streaming
 * descriptor and the `VideoFormat` built from it (src/structs.rs), the
 * flags `add_format_meta` derives from the URL, and format selection with
 * `filter_formats`, the `sort_formats*` comparators and `choose_format`
 * (src/utils.rs).
 */
module Formats {
  import opened Wrappers
  import opened Text
  import opened Errors
  import opened Ranking

  // ---------------------------------------------------------------------
  // Mime types
  // ---------------------------------------------------------------------

  /** A mime type as the `mime` crate parses it: top type, subtype and the `codecs` parameter if present. */
  datatype Mime = Mime(topType: string, subtype: string, codecsParam: Option<string>)

  /** `MimeType` */
  datatype MimeType = MimeType(
    mime: Mime,
    container: string,
    codecs: seq<string>,
    videoCodec: Option<string>,
    audioCodec: Option<string>)

  const CODEC_SEPARATOR := ", "

  /** The codec list of a `codecs` parameter: split on `", "`, empty when there is no parameter. */
  function CodecList(param: Option<string>): (codecs: seq<string>)
    ensures param.None? ==> codecs == []
    ensures param.Some? ==> |codecs| >= 1 && Join(codecs, CODEC_SEPARATOR) == param.value
  {
    match param
    case None => []
    case Some(p) =>
      JoinSplit(p, CODEC_SEPARATOR);
      Split(p, CODEC_SEPARATOR)
  }

  /**
   * The deserialisation of `MimeType` once the mime text has been parsed:
   * the container is the subtype, the video codec is the first codec of a
   * video type only, and the audio codec is the first codec of an audio
   * type and otherwise the second one.
   */
  function MimeTypeOf(mime: Mime): (m: MimeType)
    ensures m.mime == mime && m.container == mime.subtype
    ensures mime.codecsParam.None? <==> m.codecs == []
    ensures m.videoCodec.Some? <==> mime.topType == "video" && mime.codecsParam.Some?
    ensures m.videoCodec.Some? ==> m.videoCodec.value == m.codecs[0]
    ensures mime.topType == "audio" ==> (m.audioCodec.Some? <==> mime.codecsParam.Some?)
    ensures mime.topType != "audio" ==> (m.audioCodec.Some? <==> |m.codecs| >= 2)
    ensures m.audioCodec.Some? ==> m.audioCodec.value == m.codecs[if mime.topType == "audio" then 0 else 1]
  {
    var codecs := CodecList(mime.codecsParam);
    MimeType(
      mime,
      mime.subtype,
      codecs,
      if mime.topType == "video" && |codecs| > 0 then Some(codecs[0]) else None,
      if mime.topType == "audio" then (if |codecs| > 0 then Some(codecs[0]) else None)
      else if |codecs| > 1 then Some(codecs[1]) else None)
  }

  /** The text `MimeType` serialises to: `type/subtype; codecs="c1, c2"`. */
  function MimeTypeText(m: MimeType): string {
    m.mime.topType + "/" + m.mime.subtype + "; codecs=\"" + Join(m.codecs, CODEC_SEPARATOR) + "\""
  }

  /**
   * Serialising and parsing again keeps a non-empty codec list whose codecs
   * contain no comma, given a mime parser that hands back the quoted
   * parameter as written.
   */
  lemma MimeTypeRoundTrip(m: MimeType)
    requires |m.codecs| >= 1
    requires forall i :: 0 <= i < |m.codecs| ==> Avoids(m.codecs[i], ',')
    ensures MimeTypeOf(Mime(m.mime.topType, m.mime.subtype, Some(Join(m.codecs, CODEC_SEPARATOR)))).codecs == m.codecs
  {
    SplitJoin(m.codecs, CODEC_SEPARATOR);
  }

  /** An empty codec list is written as `codecs=""` and read back as one empty codec. */
  lemma EmptyCodecsReadBackAsOne(m: MimeType)
    requires m.codecs == []
    ensures MimeTypeOf(Mime(m.mime.topType, m.mime.subtype, Some(Join(m.codecs, CODEC_SEPARATOR)))).codecs == [""]
  {
    assert Join(m.codecs, CODEC_SEPARATOR) == "";
    assert IndexOf("", CODEC_SEPARATOR).None?;
  }

  // ---------------------------------------------------------------------
  // Formats
  // ---------------------------------------------------------------------

  /** `StreamingDataFormat`: a format descriptor as the player response lists it. */
  datatype StreamingDataFormat = StreamingDataFormat(
    itag: Option<nat>,
    mimeType: Option<MimeType>,
    bitrate: Option<nat>,
    width: Option<nat>,
    height: Option<nat>,
    contentLength: Option<string>,
    quality: Option<string>,
    fps: Option<nat>,
    qualityLabel: Option<string>,
    averageBitrate: Option<nat>,
    highReplication: Option<bool>,
    audioQuality: Option<string>,
    audioBitrate: Option<nat>,
    url: Option<string>,
    signatureCipher: Option<string>,
    cipher: Option<string>)

  /** `VideoFormat` */
  datatype VideoFormat = VideoFormat(
    itag: nat,
    mimeType: MimeType,
    bitrate: nat,
    width: Option<nat>,
    height: Option<nat>,
    contentLength: Option<string>,
    quality: Option<string>,
    fps: Option<nat>,
    qualityLabel: Option<string>,
    averageBitrate: Option<nat>,
    highReplication: Option<bool>,
    audioQuality: Option<string>,
    audioBitrate: Option<nat>,
    url: string,
    hasVideo: bool,
    hasAudio: bool,
    isLive: bool,
    isHls: bool,
    isDashMpd: bool)

  /**
   * `From<StreamingDataFormat> for VideoFormat`; the mime type is unwrapped,
   * so it must be present. Every flag starts false, and a missing URL, itag
   * or bitrate takes its default.
   */
  function FromStreamingData(s: StreamingDataFormat): (f: VideoFormat)
    requires s.mimeType.Some?
    ensures !f.hasVideo && !f.hasAudio && !f.isLive && !f.isHls && !f.isDashMpd
    ensures f.url == (if s.url.Some? then s.url.value else "")
    ensures f.itag == (if s.itag.Some? then s.itag.value else 0)
    ensures f.bitrate == (if s.bitrate.Some? then s.bitrate.value else 0)
    ensures f.mimeType == s.mimeType.value && f.qualityLabel == s.qualityLabel
    ensures f.audioBitrate == s.audioBitrate && f.audioQuality == s.audioQuality
  {
    VideoFormat(
      s.itag.UnwrapOr(0), s.mimeType.value, s.bitrate.UnwrapOr(0), s.width, s.height,
      s.contentLength, s.quality, s.fps, s.qualityLabel, s.averageBitrate,
      s.highReplication, s.audioQuality, s.audioBitrate, s.url.UnwrapOr(""),
      false, false, false, false, false)
  }

  // ---------------------------------------------------------------------
  // add_format_meta
  // ---------------------------------------------------------------------

  /** `\bsource[/=]yt_live_broadcast\b` matches at `i`; the match lies inside the URL. */
  predicate LiveMarkerAt(url: string, i: nat): (b: bool)
    ensures b ==> i + 24 <= |url|
  {
    (i == 0 || (i <= |url| && !IsWordChar(url[i - 1]))) &&
    OccursAt(url, "source", i) && i + 6 < |url| && (url[i + 6] == '/' || url[i + 6] == '=') &&
    OccursAt(url, "yt_live_broadcast", i + 7) &&
    (i + 24 == |url| || (i + 24 < |url| && !IsWordChar(url[i + 24])))
  }

  /** A live marker is one of the two marker texts. */
  lemma LiveMarkerText(url: string, i: nat)
    requires LiveMarkerAt(url, i)
    ensures url[i..i + 24] == "source/yt_live_broadcast" || url[i..i + 24] == "source=yt_live_broadcast"
  {
    assert url[i..i + 24] == url[i..i + 6] + [url[i + 6]] + url[i + 7..i + 24];
  }

  /** The URL holds a live marker somewhere. */
  predicate IsLiveUrl(url: string) {
    exists i | 0 <= i <= |url| :: LiveMarkerAt(url, i)
  }

  /** A live URL contains one of the two marker texts. */
  lemma LiveUrlHasMarker(url: string)
    requires IsLiveUrl(url)
    ensures Contains(url, "source/yt_live_broadcast") || Contains(url, "source=yt_live_broadcast")
  {
    var i :| 0 <= i <= |url| && LiveMarkerAt(url, i);
    LiveMarkerText(url, i);
    assert OccursAt(url, url[i..i + 24], i);
  }

  /** `/manifest/hls_(variant|playlist)/`; such a URL contains `/manifest/hls_`. */
  predicate IsHlsUrl(url: string): (b: bool)
    ensures b ==> Contains(url, "/manifest/hls_")
  {
    if Contains(url, "/manifest/hls_variant/") then
      ContainsPrefix(url, "/manifest/hls_variant/", "/manifest/hls_");
      true
    else if Contains(url, "/manifest/hls_playlist/") then
      ContainsPrefix(url, "/manifest/hls_playlist/", "/manifest/hls_");
      true
    else false
  }

  /** `/manifest/dash/`; such a URL contains `/manifest/`. */
  predicate IsDashUrl(url: string): (b: bool)
    ensures b ==> Contains(url, "/manifest/")
  {
    if Contains(url, "/manifest/dash/") then
      ContainsPrefix(url, "/manifest/dash/", "/manifest/");
      true
    else false
  }

  /** `add_format_meta`: raises the five flags the URL and the fields call for. */
  function AddFormatMeta(f: VideoFormat): (g: VideoFormat)
    ensures g.(hasVideo := f.hasVideo, hasAudio := f.hasAudio, isLive := f.isLive,
               isHls := f.isHls, isDashMpd := f.isDashMpd) == f
    ensures g.hasVideo <==> f.hasVideo || f.qualityLabel.Some?
    ensures g.hasAudio <==> f.hasAudio || f.audioBitrate.Some? || f.audioQuality.Some?
    ensures g.isLive <==> f.isLive || IsLiveUrl(f.url)
    ensures g.isHls <==> f.isHls || IsHlsUrl(f.url)
    ensures g.isDashMpd <==> f.isDashMpd || IsDashUrl(f.url)
  {
    f.(hasVideo := f.hasVideo || f.qualityLabel.Some?,
       hasAudio := f.hasAudio || f.audioBitrate.Some? || f.audioQuality.Some?,
       isLive := f.isLive || IsLiveUrl(f.url),
       isHls := f.isHls || IsHlsUrl(f.url),
       isDashMpd := f.isDashMpd || IsDashUrl(f.url))
  }

  /** Deriving the flags a second time changes nothing. */
  lemma AddFormatMetaIdempotent(f: VideoFormat)
    ensures AddFormatMeta(AddFormatMeta(f)) == AddFormatMeta(f)
  {
  }

  /** A freshly converted format ends up with exactly the flags its fields and URL call for. */
  lemma ConvertedFormatFlags(s: StreamingDataFormat)
    requires s.mimeType.Some?
    ensures var g := AddFormatMeta(FromStreamingData(s));
      (g.hasVideo <==> s.qualityLabel.Some?) &&
      (g.hasAudio <==> s.audioBitrate.Some? || s.audioQuality.Some?) &&
      (g.isLive <==> IsLiveUrl(g.url)) && (g.isHls <==> IsHlsUrl(g.url)) &&
      (g.isDashMpd <==> IsDashUrl(g.url))
  {
  }

  // ---------------------------------------------------------------------
  // Search options, quality and their equality
  // ---------------------------------------------------------------------

  /**
   * `VideoSearchOptions`. A custom filter is a shared closure; `id` stands
   * for the allocation its `Arc` points to.
   */
  datatype SearchFilter =
    | VideoAudio
    | Video
    | Audio
    | Custom(id: nat, accepts: VideoFormat -> bool)

  /**
   * `VideoQuality`. A custom ranking is modelled by the key list a
   * `sort_formats_by` comparator would use; `id` stands for its allocation.
   */
  datatype Quality =
    | Highest
    | Lowest
    | HighestAudio
    | LowestAudio
    | HighestVideo
    | LowestVideo
    | CustomQuality(filter: SearchFilter, id: nat, keys: seq<VideoFormat -> int>)

  /**
   * `PartialEq for VideoSearchOptions`: custom filters are equal when they
   * share the allocation, the other kinds exactly when they are the same.
   */
  predicate SearchFilterEq(a: SearchFilter, b: SearchFilter): (r: bool)
    ensures !a.Custom? ==> (r <==> a == b)
    ensures a.Custom? ==> (r <==> b.Custom? && a.id == b.id)
  {
    match (a, b)
    case (VideoAudio, VideoAudio) => true
    case (Video, Video) => true
    case (Audio, Audio) => true
    case (Custom(i, _), Custom(j, _)) => i == j
    case _ => false
  }

  /**
   * `PartialEq for VideoQuality`: the fixed qualities exactly when they are
   * the same, custom ones by their allocation and their filter.
   */
  predicate QualityEq(a: Quality, b: Quality): (r: bool)
    ensures !a.CustomQuality? ==> (r <==> a == b)
    ensures a.CustomQuality? ==> (r <==> b.CustomQuality? && a.id == b.id && SearchFilterEq(a.filter, b.filter))
  {
    match (a, b)
    case (Highest, Highest) => true
    case (Lowest, Lowest) => true
    case (HighestAudio, HighestAudio) => true
    case (LowestAudio, LowestAudio) => true
    case (HighestVideo, HighestVideo) => true
    case (LowestVideo, LowestVideo) => true
    case (CustomQuality(f, i, _), CustomQuality(g, j, _)) => i == j && SearchFilterEq(f, g)
    case _ => false
  }

  /** The filter equality is an equivalence relation, and filters of different kinds are never equal. */
  lemma SearchFilterEqIsEquivalence(x: SearchFilter, y: SearchFilter, z: SearchFilter)
    ensures SearchFilterEq(x, x)
    ensures SearchFilterEq(x, y) ==> SearchFilterEq(y, x)
    ensures SearchFilterEq(x, y) && SearchFilterEq(y, z) ==> SearchFilterEq(x, z)
    ensures SearchFilterEq(x, y) ==> x.Custom? == y.Custom? && x.Audio? == y.Audio? && x.Video? == y.Video?
  {
  }

  /** The quality equality is an equivalence relation. */
  lemma QualityEqIsEquivalence(a: Quality, b: Quality, c: Quality)
    ensures QualityEq(a, a)
    ensures QualityEq(a, b) ==> QualityEq(b, a)
    ensures QualityEq(a, b) && QualityEq(b, c) ==> QualityEq(a, c)
  {
    if a.CustomQuality? && b.CustomQuality? && c.CustomQuality? {
      SearchFilterEqIsEquivalence(a.filter, b.filter, c.filter);
    } else if a.CustomQuality? {
      SearchFilterEqIsEquivalence(a.filter, a.filter, a.filter);
    }
  }

  /** `DownloadOptions` */
  datatype DownloadOptions = DownloadOptions(dlChunkSize: Option<nat>)

  /** `RequestOptions`, without the HTTP client and proxy objects. */
  datatype RequestOptions = RequestOptions(cookies: Option<string>, ipv6Block: Option<string>, maxRetries: Option<nat>)

  /** `VideoOptions` */
  datatype VideoOptions = VideoOptions(
    quality: Quality,
    filter: SearchFilter,
    downloadOptions: DownloadOptions,
    requestOptions: RequestOptions)

  /** `VideoOptions::default()` */
  function DefaultVideoOptions(): (o: VideoOptions)
    ensures o.quality.Highest? && o.filter.Audio?
    ensures o.downloadOptions.dlChunkSize.None?
    ensures o.requestOptions == RequestOptions(None, None, None)
  {
    VideoOptions(Highest, Audio, DownloadOptions(None), RequestOptions(None, None, None))
  }

  /**
   * The derived `PartialEq for VideoOptions`, which ignores the request
   * options: options that differ only in them are equal.
   */
  predicate VideoOptionsEq(a: VideoOptions, b: VideoOptions): (r: bool)
    ensures a.(requestOptions := b.requestOptions) == b ==> r
    ensures r ==> a.downloadOptions == b.downloadOptions
  {
    QualityEqIsEquivalence(a.quality, a.quality, a.quality);
    SearchFilterEqIsEquivalence(a.filter, a.filter, a.filter);
    QualityEq(a.quality, b.quality) && SearchFilterEq(a.filter, b.filter) &&
    a.downloadOptions == b.downloadOptions
  }

  // ---------------------------------------------------------------------
  // filter_formats
  // ---------------------------------------------------------------------

  /** The test `filter_formats` applies; live formats always pass. */
  predicate Keeps(filter: SearchFilter, f: VideoFormat) {
    match filter
    case Audio => (!f.hasVideo && f.hasAudio) || f.isLive
    case Video => (f.hasVideo && !f.hasAudio) || f.isLive
    case Custom(_, accepts) => accepts(f) || f.isLive
    case VideoAudio => (f.hasVideo && f.hasAudio) || f.isLive
  }

  /** `filter_formats`: what is kept passes the filter, and every input that passes is kept. */
  function FilterFormats(formats: seq<VideoFormat>, filter: SearchFilter): (r: seq<VideoFormat>)
    ensures |r| <= |formats|
    ensures forall i :: 0 <= i < |r| ==> r[i] in formats && Keeps(filter, r[i])
    ensures forall i :: 0 <= i < |formats| && Keeps(filter, formats[i]) ==> formats[i] in r
  {
    Filter(formats, KeepsFn(filter))
  }

  /** `Keeps` as the closure `retain` receives. */
  function KeepsFn(filter: SearchFilter): VideoFormat -> bool {
    (f: VideoFormat) => Keeps(filter, f)
  }

  /**
   * `filter_formats` keeps exactly the formats the filter accepts or that are
   * live, in their original order.
   */
  lemma FilterFormatsSpec(a: seq<VideoFormat>, b: seq<VideoFormat>, filter: SearchFilter)
    ensures forall f :: f in FilterFormats(a, filter) <==> f in a && Keeps(filter, f)
    ensures FilterFormats(a + b, filter) == FilterFormats(a, filter) + FilterFormats(b, filter)
    ensures FilterFormats(FilterFormats(a, filter), filter) == FilterFormats(a, filter)
  {
    var p := KeepsFn(filter);
    var r := Filter(a, p);
    forall f ensures f in r <==> f in a && Keeps(filter, f) {
      if f in r {
        var i :| 0 <= i < |r| && r[i] == f;
      }
      if f in a {
        var i :| 0 <= i < |a| && a[i] == f;
      }
    }
    FilterAppend(a, b, p);
    FilterIdempotent(a, p);
  }

  // ---------------------------------------------------------------------
  // The sort keys
  // ---------------------------------------------------------------------

  const AUDIO_ENCODING_RANKS: seq<string> := ["mp4a", "mp3", "vorbis", "aac", "opus", "flac"]
  const VIDEO_ENCODING_RANKS: seq<string> :=
    ["mp4v", "avc1", "Sorenson H.283", "MPEG-4 Visual", "VP8", "VP9", "H.264"]

  /** `b as i32` */
  function FlagRank(b: bool): int {
    if b then 1 else 0
  }

  /** `n as i32` for a `u64`: the low 32 bits read as a two's-complement number. */
  function AsI32(n: nat): (r: int)
    ensures I32_MIN <= r <= I32_MAX
    ensures n <= I32_MAX ==> r == n
    ensures (r - n) % 0x1_0000_0000 == 0
  {
    var low := n % 0x1_0000_0000;
    if low <= I32_MAX then low else low - 0x1_0000_0000
  }

  /** The position of the first rank that occurs in the joined codecs, or -1. */
  function EncodingRank(codecs: seq<string>, ranks: seq<string>): (r: int)
    ensures -1 <= r < |ranks|
    ensures r >= 0 ==> Contains(Join(codecs, CODEC_SEPARATOR), ranks[r])
    ensures forall i :: 0 <= i < |ranks| && (r == -1 || i < r) ==> !Contains(Join(codecs, CODEC_SEPARATOR), ranks[i])
  {
    if ranks == [] then -1
    else if Contains(Join(codecs, CODEC_SEPARATOR), ranks[0]) then 0
    else
      var r := EncodingRank(codecs, ranks[1..]);
      if r == -1 then -1 else r + 1
  }

  /** A sign-and-digits run starts at `i`; the result is where it ends. */
  function IntRunEnd(s: string, i: nat): (e: Option<nat>)
    requires i <= |s|
    ensures e.Some? ==> i < e.value <= |s|
  {
    var d := if i < |s| && (s[i] == '-' || s[i] == '+') then i + 1 else i;
    var e := DigitsEnd(s, d);
    if e > d then Some(e) else None
  }

  function DigitsEnd(s: string, i: nat): (e: nat)
    requires i <= |s|
    ensures i <= e <= |s|
    ensures forall k :: i <= k < e ==> IsDigit(s[k])
    ensures e < |s| ==> !IsDigit(s[e])
    decreases |s| - i
  {
    if i < |s| && IsDigit(s[i]) then DigitsEnd(s, i + 1) else i
  }

  /** The end of the whitespace run starting at `i` (`\s*`). */
  function SpacesEnd(s: string, i: nat): (e: nat)
    requires i <= |s|
    ensures i <= e <= |s|
    ensures forall k :: i <= k < e ==> IsWhitespace(s[k])
    decreases |s| - i
  {
    if i < |s| && IsWhitespace(s[i]) then SpacesEnd(s, i + 1) else i
  }

  /**
   * The leftmost match of `(?m)^\s*((\-|\+)?[0-9]+)\s*` at or after `p`, as
   * the span it covers.
   */
  function LeadingIntMatch(s: string, p: nat): (m: Option<(nat, nat)>)
    ensures m.Some? ==> p <= m.value.0 < m.value.1 <= |s|
    decreases |s| + 1 - p
  {
    if p > |s| then None
    else
      var lineStart := p == 0 || s[p - 1] == '\n';
      var run := IntRunEnd(s, SpacesEnd(s, p));
      if lineStart && run.Some? then Some((p, SpacesEnd(s, run.value)))
      else LeadingIntMatch(s, p + 1)
  }

  /**
   * The number at the start of a quality label such as `1080p60`: the whole
   * regex match parsed as an `i32`, and 0 when there is no match or the
   * match does not parse.
   */
  function QualityLabelRank(ql: Option<string>): int {
    var s := ql.UnwrapOr("");
    match LeadingIntMatch(s, 0)
    case None => 0
    case Some((a, b)) => ParseI32(s[a..b]).UnwrapOr(0)
  }

  /** A label made of digits only ranks at its value. */
  lemma DigitLabelRank(text: string)
    requires |text| >= 1 && AllDigits(text) && DigitsValue(text) <= I32_MAX
    ensures QualityLabelRank(Some(text)) == DigitsValue(text)
  {
    assert SpacesEnd(text, 0) == 0;
    assert DigitsEnd(text, 0) == |text|;
    assert SpacesEnd(text, |text|) == |text|;
    assert text[0..|text|] == text;
  }

  /** `content_length` parses as a positive `u64`. */
  function HasContentLength(f: VideoFormat): bool {
    ParseUnsigned(f.contentLength.UnwrapOr("0"), U64_MAX).UnwrapOr(0) > 0
  }

  /** The keys of `sort_formats`, in order. */
  const FORMAT_KEYS: seq<VideoFormat -> int> := [
    (f: VideoFormat) => FlagRank(f.isHls),
    (f: VideoFormat) => FlagRank(f.isDashMpd),
    (f: VideoFormat) => FlagRank(f.hasVideo && f.hasAudio),
    (f: VideoFormat) => FlagRank(f.hasVideo),
    (f: VideoFormat) => FlagRank(HasContentLength(f)),
    (f: VideoFormat) => QualityLabelRank(f.qualityLabel),
    (f: VideoFormat) => AsI32(f.bitrate),
    (f: VideoFormat) => AsI32(f.audioBitrate.UnwrapOr(0)),
    (f: VideoFormat) => EncodingRank(f.mimeType.codecs, VIDEO_ENCODING_RANKS),
    (f: VideoFormat) => EncodingRank(f.mimeType.codecs, AUDIO_ENCODING_RANKS)
  ]

  /** The keys of `sort_formats_by_video`. */
  const VIDEO_KEYS: seq<VideoFormat -> int> := [
    (f: VideoFormat) => QualityLabelRank(f.qualityLabel),
    (f: VideoFormat) => AsI32(f.bitrate),
    (f: VideoFormat) => EncodingRank(f.mimeType.codecs, VIDEO_ENCODING_RANKS)
  ]

  /** The keys of `sort_formats_by_audio`. */
  const AUDIO_KEYS: seq<VideoFormat -> int> := [
    (f: VideoFormat) => AsI32(f.audioBitrate.UnwrapOr(0)),
    (f: VideoFormat) => EncodingRank(f.mimeType.codecs, AUDIO_ENCODING_RANKS)
  ]

  /** `sort_formats` puts an HLS format in front of any format that is not HLS. */
  lemma HlsSortsFirst(a: VideoFormat, b: VideoFormat)
    requires a.isHls && !b.isHls
    ensures CmpBy(a, b, FORMAT_KEYS) == Less
  {
    assert FORMAT_KEYS[0](a) == 1 && FORMAT_KEYS[0](b) == 0;
  }

  /** A format that may precede an HLS format in a sorted list is itself HLS. */
  lemma HlsOnlyAfterHls(a: VideoFormat, b: VideoFormat)
    requires NotAfter(a, b, FORMAT_KEYS) && b.isHls
    ensures a.isHls
  {
    assert FORMAT_KEYS[0](b) == 1;
  }

  /** Among formats that agree on the stream kind, one with video and audio beats one without. */
  lemma MuxedSortsBeforeSingleTrack(a: VideoFormat, b: VideoFormat)
    requires a.isHls == b.isHls && a.isDashMpd == b.isDashMpd
    requires a.hasVideo && a.hasAudio && !(b.hasVideo && b.hasAudio)
    ensures CmpBy(a, b, FORMAT_KEYS) == Less
  {
    assert FORMAT_KEYS[0](a) == FORMAT_KEYS[0](b);
    assert FORMAT_KEYS[1](a) == FORMAT_KEYS[1](b);
    assert FORMAT_KEYS[2](a) > FORMAT_KEYS[2](b);
  }

  // ---------------------------------------------------------------------
  // choose_format
  // ---------------------------------------------------------------------

  predicate AnyHls(formats: seq<VideoFormat>) {
    exists i | 0 <= i < |formats| :: formats[i].isHls
  }

  /** Once an HLS format is present, live formats that are not HLS drop out. */
  predicate HlsOrNotLive(f: VideoFormat) {
    f.isHls || !f.isLive
  }

  /** The list `choose_format` sorts: filtered, pruned of non-HLS live formats when HLS exists. */
  function Pool(formats: seq<VideoFormat>, filter: SearchFilter): seq<VideoFormat> {
    var kept := FilterFormats(formats, filter);
    if AnyHls(kept) then Filter(kept, HlsOrNotLive) else kept
  }

  /** The list the quality tier picks from, and whether it takes the first (true) or the last element. */
  function Tier(sorted: seq<VideoFormat>, options: VideoOptions): (seq<VideoFormat>, bool) {
    match options.quality
    case Highest => (FilterFormats(sorted, options.filter), true)
    case Lowest => (FilterFormats(sorted, options.filter), false)
    case HighestAudio => (Sort(FilterFormats(sorted, Audio), AUDIO_KEYS), true)
    case LowestAudio => (Sort(FilterFormats(sorted, Audio), AUDIO_KEYS), false)
    case HighestVideo => (Sort(FilterFormats(sorted, Video), VIDEO_KEYS), true)
    case LowestVideo => (Sort(FilterFormats(sorted, Video), VIDEO_KEYS), false)
    case CustomQuality(filter, _, keys) => (Sort(FilterFormats(sorted, filter), keys), true)
  }

  /**
   * What `choose_format` returns: an element of the quality tier's list, or
   * `FormatNotFound`, its only error, exactly when that list is empty.
   */
  function Chosen(formats: seq<VideoFormat>, options: VideoOptions): (r: Result<VideoFormat, VideoError>)
    ensures r.Err? <==> Tier(Sort(Pool(formats, options.filter), FORMAT_KEYS), options).0 == []
    ensures r.Err? ==> r.error == FormatNotFound
    ensures r.Ok? ==> r.value in Tier(Sort(Pool(formats, options.filter), FORMAT_KEYS), options).0
  {
    var (list, first) := Tier(Sort(Pool(formats, options.filter), FORMAT_KEYS), options);
    if list == [] then Err(FormatNotFound)
    else if first then Ok(list[0])
    else Ok(list[|list| - 1])
  }

  /** `choose_format`, step by step on a private copy of the list. */
  method ChooseFormat(formats: seq<VideoFormat>, options: VideoOptions) returns (r: Result<VideoFormat, VideoError>)
    ensures r == Chosen(formats, options)
  {
    var sorted := SortedPool(formats, options.filter);
    var list, first := PickTier(sorted, options);
    if list == [] {
      r := Err(FormatNotFound);
    } else if first {
      r := Ok(list[0]);
    } else {
      r := Ok(list[|list| - 1]);
    }
  }

  /** The filtering, HLS pruning and `sort_formats` sort at the start of `choose_format`. */
  method SortedPool(formats: seq<VideoFormat>, filter: SearchFilter) returns (sorted: seq<VideoFormat>)
    ensures sorted == Sort(Pool(formats, filter), FORMAT_KEYS)
  {
    var list := Retain(formats, KeepsFn(filter));
    if AnyHls(list) {
      list := Retain(list, HlsOrNotLive);
    }
    sorted := SortBy(list, FORMAT_KEYS);
  }

  /** The quality tier's re-filtering and re-sorting. */
  method PickTier(sorted: seq<VideoFormat>, options: VideoOptions) returns (list: seq<VideoFormat>, first: bool)
    ensures (list, first) == Tier(sorted, options)
  {
    first := true;
    match options.quality {
      case Highest =>
        list := Retain(sorted, KeepsFn(options.filter));
      case Lowest =>
        list := Retain(sorted, KeepsFn(options.filter));
        first := false;
      case HighestAudio =>
        list := Retain(sorted, KeepsFn(Audio));
        list := SortBy(list, AUDIO_KEYS);
      case LowestAudio =>
        list := Retain(sorted, KeepsFn(Audio));
        list := SortBy(list, AUDIO_KEYS);
        first := false;
      case HighestVideo =>
        list := Retain(sorted, KeepsFn(Video));
        list := SortBy(list, VIDEO_KEYS);
      case LowestVideo =>
        list := Retain(sorted, KeepsFn(Video));
        list := SortBy(list, VIDEO_KEYS);
        first := false;
      case CustomQuality(filter, _, keys) =>
        list := Retain(sorted, KeepsFn(filter));
        list := SortBy(list, keys);
    }
  }

  /** Every element of the pool is an input format that passes the filter. */
  lemma PoolMembers(formats: seq<VideoFormat>, filter: SearchFilter, f: VideoFormat)
    requires f in multiset(Sort(Pool(formats, filter), FORMAT_KEYS))
    ensures f in formats && Keeps(filter, f)
    ensures AnyHls(FilterFormats(formats, filter)) ==> HlsOrNotLive(f)
  {
    var kept := FilterFormats(formats, filter);
    FilterFormatsSpec(formats, [], filter);
    assert f in Pool(formats, filter);
    if AnyHls(kept) {
      var i :| 0 <= i < |Filter(kept, HlsOrNotLive)| && Filter(kept, HlsOrNotLive)[i] == f;
    }
  }

  /** The filter the quality tier applies to the sorted pool. */
  function TierFilter(options: VideoOptions): SearchFilter {
    match options.quality
    case HighestAudio => Audio
    case LowestAudio => Audio
    case HighestVideo => Video
    case LowestVideo => Video
    case CustomQuality(filter, _, _) => filter
    case _ => options.filter
  }

  /** Whatever the tier picks from passed the tier's filter. */
  lemma TierMembers(sorted: seq<VideoFormat>, options: VideoOptions, f: VideoFormat)
    requires f in Tier(sorted, options).0
    ensures f in sorted && Keeps(TierFilter(options), f)
  {
    var list := Tier(sorted, options).0;
    var filtered := FilterFormats(sorted, TierFilter(options));
    assert f in multiset(list);
    assert f in filtered;
    FilterFormatsSpec(sorted, [], TierFilter(options));
  }

  /**
   * The chosen format is one of the input formats and passes the filter;
   * the audio and video tiers also pass the audio or video test.
   */
  lemma ChosenIsCandidate(formats: seq<VideoFormat>, options: VideoOptions)
    requires Chosen(formats, options).Ok?
    ensures Chosen(formats, options).value in formats
    ensures Keeps(options.filter, Chosen(formats, options).value)
    ensures Keeps(TierFilter(options), Chosen(formats, options).value)
  {
    var sorted := Sort(Pool(formats, options.filter), FORMAT_KEYS);
    var list := Tier(sorted, options).0;
    var f := Chosen(formats, options).value;
    assert f in list;
    TierMembers(sorted, options, f);
    assert f in multiset(sorted);
    PoolMembers(formats, options.filter, f);
  }

  /** Re-filtering the sorted pool with the same filter changes nothing. */
  lemma RefilterIsNoOp(formats: seq<VideoFormat>, filter: SearchFilter)
    ensures FilterFormats(Sort(Pool(formats, filter), FORMAT_KEYS), filter) == Sort(Pool(formats, filter), FORMAT_KEYS)
  {
    var sorted := Sort(Pool(formats, filter), FORMAT_KEYS);
    forall f | f in sorted ensures Keeps(filter, f) {
      assert f in multiset(sorted);
      PoolMembers(formats, filter, f);
    }
    FilterKeepsAll(sorted, KeepsFn(filter));
  }

  /**
   * `Highest` picks the earliest format of the pool that no other format
   * outranks under `sort_formats`: the sort is stable.
   */
  lemma HighestIsFirstBest(formats: seq<VideoFormat>, options: VideoOptions)
    requires options.quality.Highest?
    requires Pool(formats, options.filter) != []
    ensures var pool := Pool(formats, options.filter);
      Chosen(formats, options) == Ok(pool[FirstBest(pool, FORMAT_KEYS)])
  {
    var pool := Pool(formats, options.filter);
    RefilterIsNoOp(formats, options.filter);
    SortHead(pool, FORMAT_KEYS);
  }

  /**
   * `Lowest` picks the latest format of the pool that outranks no other
   * format under `sort_formats`.
   */
  lemma LowestIsLastWorst(formats: seq<VideoFormat>, options: VideoOptions)
    requires options.quality.Lowest?
    requires Pool(formats, options.filter) != []
    ensures var pool := Pool(formats, options.filter);
      Chosen(formats, options) == Ok(pool[LastWorst(pool, FORMAT_KEYS)])
  {
    var pool := Pool(formats, options.filter);
    RefilterIsNoOp(formats, options.filter);
    SortLast(pool, FORMAT_KEYS);
  }

  /**
   * The audio tier filters the already-filtered list again: under the
   * `VideoAudio` filter only a live format can come out of `HighestAudio`.
   */
  lemma AudioTierAfterMuxedFilterIsLive(formats: seq<VideoFormat>, options: VideoOptions)
    requires options.quality.HighestAudio? && options.filter.VideoAudio?
    requires Chosen(formats, options).Ok?
    ensures Chosen(formats, options).value.isLive
  {
    ChosenIsCandidate(formats, options);
  }
}
