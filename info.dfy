/**
 * `Video` (src/info.rs): building a video handle from a URL or id, the
 * checks `get_basic_info` makes on the player response before it returns,
 * the itag lines `get_m3u8` picks out of an HLS master playlist, the merge
 * and sort in `get_info`, and the decision `stream` takes between a live
 * and a non-live stream.
 *
 * HTTP requests, HTML scraping and JSON decoding are parameters: the model
 * starts from what they deliver.
 */
module Info {
  import opened Wrappers
  import opened Text
  import opened Errors
  import opened Ranking
  import opened Formats
  import opened VideoId
  import opened StringUtils

  // ---------------------------------------------------------------------
  // Video::new_with_options and get_video_url
  // ---------------------------------------------------------------------

  const BASE_URL := "https://www.youtube.com/watch?v="

  /** A video handle: its identifier, its options and the retry count of its client. */
  datatype Video = Video(videoId: string, options: VideoOptions, maxRetries: nat)

  /**
   * `Video::new_with_options`. The identifier is looked up first; then the
   * HTTP client is built (`client`: its proxy, IPv6 and cookie setup can
   * fail); `max_retries` falls back to `defaultMaxRetries`.
   */
  function NewWithOptions(urlOrId: string, options: VideoOptions, parseQuery: string -> Option<seq<(string, string)>>,
                          client: Result<(), VideoError>, defaultMaxRetries: nat): (r: Result<Video, VideoError>)
    ensures GetVideoId(urlOrId, parseQuery).None? ==> r == Err(VideoNotFound)
    ensures GetVideoId(urlOrId, parseQuery).Some? && client.Err? ==> r == Err(client.error)
    ensures r.Ok? <==> GetVideoId(urlOrId, parseQuery).Some? && client.Ok?
    ensures r.Ok? ==> ValidateId(r.value.videoId) && r.value.options == options
    ensures r.Ok? ==> r.value.maxRetries == (if options.requestOptions.maxRetries.Some? then options.requestOptions.maxRetries.value else defaultMaxRetries)
  {
    match GetVideoId(urlOrId, parseQuery)
    case None => Err(VideoNotFound)
    case Some(id) =>
      if client.Err? then Err(client.error)
      else Ok(Video.Video(id, options, options.requestOptions.maxRetries.UnwrapOr(defaultMaxRetries)))
  }

  /** `get_video_url`: the watch page of the video. */
  function VideoUrl(v: Video): (u: string)
    ensures StartsWith(u, BASE_URL) && u[|BASE_URL|..] == v.videoId
  {
    BASE_URL + v.videoId
  }

  /**
   * The watch URL leads back to the video: given the query the URL parser
   * reads from it, a handle made from the URL of a valid identifier has the
   * same identifier and the same URL.
   */
  lemma WatchUrlRoundTrip(v: Video, parseQuery: string -> Option<seq<(string, string)>>, defaultMaxRetries: nat)
    requires ValidateId(v.videoId) && |v.videoId| == ID_LENGTH
    requires parseQuery(VideoUrl(v)) == Some([("v", v.videoId)])
    ensures var w := NewWithOptions(VideoUrl(v), v.options, parseQuery, Ok(()), defaultMaxRetries);
      w.Ok? && w.value.videoId == v.videoId && VideoUrl(w.value) == VideoUrl(v)
  {
    var id, u := v.videoId, VideoUrl(v);
    WatchUrlGivesId(id, parseQuery);
    NewWithOptionsKeepsId(u, id, v.options, parseQuery, defaultMaxRetries);
  }

  lemma NewWithOptionsKeepsId(urlOrId: string, id: string, options: VideoOptions,
                              parseQuery: string -> Option<seq<(string, string)>>, defaultMaxRetries: nat)
    requires GetVideoId(urlOrId, parseQuery) == Some(id)
    ensures var w := NewWithOptions(urlOrId, options, parseQuery, Ok(()), defaultMaxRetries);
      w.Ok? && w.value.videoId == id
  {
  }

  /** The identifier of a watch URL is read from its `v` parameter. */
  lemma WatchUrlGivesId(id: string, parseQuery: string -> Option<seq<(string, string)>>)
    requires ValidateId(id) && |id| == ID_LENGTH
    requires parseQuery(BASE_URL + id) == Some([("v", id)])
    ensures GetVideoId(BASE_URL + id, parseQuery) == Some(id)
  {
    ValidIdPassesFilter(id);
    ValidIdEndsInIdChar(id);
    WatchUrlShape(id);
    UrlIdFromQuery(BASE_URL + id, id, parseQuery);
  }

  /** A trimmed http(s) URL whose query holds `v=<id>` yields that identifier. */
  lemma UrlIdFromQuery(u: string, id: string, parseQuery: string -> Option<seq<(string, string)>>)
    requires Trim(u) == u && IsHttpUrl(u) && !ValidateId(u)
    requires parseQuery(u) == Some([("v", id)])
    requires TakeValidPrefix(id) == Some(id)
    ensures GetVideoId(u, parseQuery) == Some(id)
  {
    UrlCandidateFromQuery(u, id, parseQuery);
    assert UrlVideoId(u, parseQuery) == Some(id);
  }

  lemma UrlCandidateFromQuery(u: string, id: string, parseQuery: string -> Option<seq<(string, string)>>)
    requires Trim(u) == u
    requires parseQuery(u) == Some([("v", id)])
    ensures UrlCandidate(u, parseQuery) == Some(id)
  {
    assert FirstValue([("v", id)], "v") == Some(id);
  }

  /** A watch URL is an untrimmed `https://` URL that is no identifier itself. */
  lemma WatchUrlShape(id: string)
    requires |id| == ID_LENGTH && IsIdChar(id[ID_LENGTH - 1])
    ensures Trim(BASE_URL + id) == BASE_URL + id && IsHttpUrl(BASE_URL + id) && !ValidateId(BASE_URL + id)
  {
    IdCharIsNotWhitespace(id[ID_LENGTH - 1]);
    var u := BASE_URL + id;
    assert IsHttpUrl(u) by {
      assert u[..|"https://"|] == "https://";
    }
    assert Trim(u) == u by {
      assert u[|u| - 1] == id[ID_LENGTH - 1];
      TrimUnchanged(u);
    }
  }

  /** A valid identifier of full length passes the filter unchanged. */
  lemma ValidIdPassesFilter(id: string)
    requires ValidateId(id) && |id| == ID_LENGTH
    ensures TakeValidPrefix(id) == Some(id)
  {
    WholeIdIsItsSubstring(id);
    ValidSubstringPasses(id);
  }

  lemma WholeIdIsItsSubstring(id: string)
    requires |id| == ID_LENGTH
    ensures SubstringOf(id, 0, ID_LENGTH) == id
  {
  }

  lemma ValidSubstringPasses(id: string)
    requires ValidateId(id) && SubstringOf(id, 0, ID_LENGTH) == id
    ensures TakeValidPrefix(id) == Some(id)
  {
  }

  /** A valid identifier of full length has nothing to trim, so it ends in an identifier character. */
  lemma ValidIdEndsInIdChar(id: string)
    requires ValidateId(id) && |id| == ID_LENGTH
    ensures IsIdChar(id[ID_LENGTH - 1])
  {
    ValidIdIsTrimmed(id);
    assert Trim(id)[ID_LENGTH - 1] == id[ID_LENGTH - 1];
  }

  lemma ValidIdIsTrimmed(id: string)
    requires ValidateId(id) && |id| == ID_LENGTH
    ensures Trim(id) == id
  {
    ValidIdTrimLength(id);
    FullLengthTrim(id);
  }

  lemma ValidIdTrimLength(id: string)
    requires ValidateId(id) && |id| == ID_LENGTH
    ensures |Trim(id)| == |id|
  {
  }

  lemma FullLengthTrim(s: string)
    requires |Trim(s)| == |s|
    ensures Trim(s) == s
  {
  }

  // ---------------------------------------------------------------------
  // get_basic_info: the playability checks
  // ---------------------------------------------------------------------

  /** `playabilityStatus`: its status, its reason, and whether its error screen carries a rental offer. */
  datatype PlayabilityStatus = PlayabilityStatus(status: Option<string>, reason: Option<string>, rentalOffer: bool)

  /** The parts of `PlayerResponse` the checks read. */
  datatype PlayerResponse = PlayerResponse(
    playability: Option<PlayabilityStatus>,
    isLiveContent: Option<bool>,
    isFamilySafe: Option<bool>)

  function Status(p: PlayerResponse): Option<string> {
    if p.playability.Some? then p.playability.value.status else None
  }

  /** `is_play_error`: the status is one of `statuses`; a missing status or an empty list is no error. */
  predicate IsPlayError(p: PlayerResponse, statuses: seq<string>)
    ensures IsPlayError(p, statuses) ==> p.playability.Some? && p.playability.value.status.Some?
    ensures statuses == [] ==> !IsPlayError(p, statuses)
    ensures |statuses| == 1 ==> (IsPlayError(p, statuses) <==> Status(p) == Some(statuses[0]))
  {
    Status(p).Some? && Status(p).value in statuses
  }

  /** `is_player_response_error`: the reason, when it is one of `reasons`. */
  function PlayerResponseError(p: PlayerResponse, reasons: seq<string>): (r: Option<string>)
    ensures r.Some? <==> p.playability.Some? && p.playability.value.reason.Some? && p.playability.value.reason.value in reasons
    ensures r.Some? ==> r == p.playability.value.reason
  {
    if p.playability.Some? && p.playability.value.reason.Some? && p.playability.value.reason.value in reasons
    then p.playability.value.reason else None
  }

  /** `is_private_video`: the play error `LOGIN_REQUIRED`. */
  predicate IsPrivateVideo(p: PlayerResponse)
    ensures IsPrivateVideo(p) <==> IsPlayError(p, ["LOGIN_REQUIRED"])
  {
    Status(p) == Some("LOGIN_REQUIRED")
  }

  /** `is_rental`: the play error `UNPLAYABLE` with a rental offer on the error screen; never private. */
  predicate IsRental(p: PlayerResponse)
    ensures IsRental(p) <==> IsPlayError(p, ["UNPLAYABLE"]) && p.playability.value.rentalOffer
    ensures IsRental(p) ==> !IsPrivateVideo(p)
  {
    p.playability.Some? && Status(p) == Some("UNPLAYABLE") && p.playability.value.rentalOffer
  }

  /** `is_not_yet_broadcasted`: the play error `LIVE_STREAM_OFFLINE`. */
  predicate IsNotYetBroadcasted(p: PlayerResponse)
    ensures IsNotYetBroadcasted(p) <==> IsPlayError(p, ["LIVE_STREAM_OFFLINE"])
  {
    p.playability.Some? && Status(p) == Some("LIVE_STREAM_OFFLINE")
  }

  /** `is_live`: live only when the details say so; missing details count as not live. */
  predicate IsLive(p: PlayerResponse)
    ensures IsLive(p) <==> p.isLiveContent == Some(true)
  {
    p.isLiveContent.UnwrapOr(false)
  }

  /**
   * `is_age_restricted_from_html`, given the `content` of the page's
   * `isFamilyFriendly` and `og:restrictions:age` meta tags ("" when absent).
   */
  predicate IsAgeRestricted(p: PlayerResponse, familyFriendlyMeta: string, ageMeta: string)
    ensures p.isFamilySafe == Some(false) ==> IsAgeRestricted(p, familyFriendlyMeta, ageMeta)
    ensures !IsAgeRestricted(p, familyFriendlyMeta, ageMeta) ==> familyFriendlyMeta != "false" && ageMeta != "18+"
    ensures p.isFamilySafe != Some(false) && familyFriendlyMeta != "false" && ageMeta != "18+" ==> !IsAgeRestricted(p, familyFriendlyMeta, ageMeta)
  {
    !p.isFamilySafe.UnwrapOr(true) || familyFriendlyMeta == "false" || ageMeta == "18+"
  }

  const BOT_REASONS: seq<string> := ["not a bot"]

  /**
   * The checks of `get_basic_info` in their order. `iosConfig` and
   * `embedConfig` are the player-config requests made for a video that is
   * not live and for an age-restricted one; they replace streaming data and
   * storyboards only, so the later checks still read the first response.
   */
  function BasicInfoChecks(p: PlayerResponse, ageRestricted: bool,
                           iosConfig: Result<(), VideoError>, embedConfig: Result<(), VideoError>): (r: Result<(), VideoError>)
    ensures IsPlayError(p, ["ERROR"]) ==> r == Err(VideoNotFound)
    ensures !IsPlayError(p, ["ERROR"]) && PlayerResponseError(p, BOT_REASONS).Some? ==>
      r == Err(VideoPlayerResponseError(PlayerResponseError(p, BOT_REASONS).value))
    ensures !IsPlayError(p, ["ERROR"]) && PlayerResponseError(p, BOT_REASONS).None? && IsPrivateVideo(p) && !ageRestricted ==>
      r == Err(VideoIsPrivate)
    ensures r.Ok? <==>
      && !IsPlayError(p, ["ERROR"]) && PlayerResponseError(p, BOT_REASONS).None? && !(IsPrivateVideo(p) && !ageRestricted)
      && (IsLive(p) || iosConfig.Ok?) && (!ageRestricted || embedConfig.Ok?)
      && !IsRental(p) && !IsNotYetBroadcasted(p)
  {
    if IsPlayError(p, ["ERROR"]) then Err(VideoNotFound)
    else if PlayerResponseError(p, BOT_REASONS).Some? then Err(VideoPlayerResponseError(PlayerResponseError(p, BOT_REASONS).value))
    else if IsPrivateVideo(p) && !ageRestricted then Err(VideoIsPrivate)
    else if !IsLive(p) && iosConfig.Err? then Err(iosConfig.error)
    else if ageRestricted && embedConfig.Err? then Err(embedConfig.error)
    else if IsRental(p) || IsNotYetBroadcasted(p) then Err(VideoSourceNotFound)
    else Ok(())
  }

  /**
   * Each status-driven error comes from its own status: when the config
   * requests did not fail, `VideoNotFound` means the status is `ERROR`,
   * `VideoIsPrivate` means `LOGIN_REQUIRED`, and `VideoSourceNotFound`
   * means `UNPLAYABLE` or `LIVE_STREAM_OFFLINE`.
   */
  lemma ChecksFollowStatus(p: PlayerResponse, ageRestricted: bool)
    ensures var r := BasicInfoChecks(p, ageRestricted, Ok(()), Ok(()));
      && (r == Err(VideoNotFound) ==> Status(p) == Some("ERROR"))
      && (r == Err(VideoIsPrivate) ==> Status(p) == Some("LOGIN_REQUIRED") && !ageRestricted)
      && (r == Err(VideoSourceNotFound) ==> Status(p) in {Some("UNPLAYABLE"), Some("LIVE_STREAM_OFFLINE")})
  {
  }

  /** An age-restricted video is never reported private. */
  lemma AgeRestrictedIsNotPrivate(p: PlayerResponse, iosConfig: Result<(), VideoError>, embedConfig: Result<(), VideoError>)
    requires iosConfig != Err(VideoIsPrivate) && embedConfig != Err(VideoIsPrivate)
    ensures BasicInfoChecks(p, true, iosConfig, embedConfig) != Err(VideoIsPrivate)
  {
  }

  // ---------------------------------------------------------------------
  // get_m3u8
  // ---------------------------------------------------------------------

  const ITAG_MARKER := "/itag/"

  /** `/itag/(\d+)/` matching at position `i`; its capture. */
  function ItagAt(line: string, i: nat): (r: Option<string>)
    ensures r.Some? ==> |r.value| >= 1 && AllDigits(r.value) && OccursAt(line, ITAG_MARKER + r.value + "/", i)
  {
    if !OccursAt(line, ITAG_MARKER, i) then None
    else
      var d := i + |ITAG_MARKER|;
      var e := DigitsEnd(line, d);
      if e > d && e < |line| && line[e] == '/' then
        assert line[i..e + 1] == ITAG_MARKER + line[d..e] + "/";
        Some(line[d..e])
      else None
  }

  /** The leftmost match of `/itag/(\d+)/` at or after `from`, as `ITAG_REGEX.captures` finds it. */
  function FirstItag(line: string, from: nat): (r: Option<string>)
    requires from <= |line|
    ensures r.Some? ==> exists i :: from <= i <= |line| && ItagAt(line, i) == r
    ensures r.None? <==> forall i :: from <= i <= |line| ==> ItagAt(line, i).None?
    decreases |line| - from
  {
    if ItagAt(line, from).Some? then ItagAt(line, from)
    else if from == |line| then None
    else FirstItag(line, from + 1)
  }

  /** One line of the playlist: kept with its itag when it starts with `http://` or `https://` and has an itag. */
  function ItagLine(line: string): (r: Option<(string, string)>)
    ensures r.Some? <==> IsHttpUrl(line) && exists i :: 0 <= i <= |line| && ItagAt(line, i).Some?
    ensures r.Some? ==> r.value.1 == line && |r.value.0| >= 1 && AllDigits(r.value.0) && Contains(line, ITAG_MARKER + r.value.0 + "/")
  {
    if !IsHttpUrl(line) then None
    else
      var t := FirstItag(line, 0);
      if t.None? then None
      else
        ghost var i :| 0 <= i <= |line| && ItagAt(line, i) == t;
        assert IndexOf(line, ITAG_MARKER + t.value + "/").Some?;
        Some((t.value, line))
  }

  /** The kept lines, in order. */
  function ItagLinesOf(lines: seq<string>): (r: seq<(string, string)>)
    ensures |r| <= |lines|
    ensures forall k :: 0 <= k < |r| ==> r[k].1 in lines && IsHttpUrl(r[k].1) && |r[k].0| >= 1 && AllDigits(r[k].0)
  {
    if lines == [] then []
    else
      var rest := ItagLinesOf(lines[1..]);
      match ItagLine(lines[0])
      case None => rest
      case Some(p) => [p] + rest
  }

  /** Keeping lines works line by line: the result for two blocks of lines is the two results in order. */
  lemma {:induction false} ItagLinesAppend(a: seq<string>, b: seq<string>)
    ensures ItagLinesOf(a + b) == ItagLinesOf(a) + ItagLinesOf(b)
    decreases |a|
  {
    if a == [] {
      assert a + b == b;
    } else {
      assert (a + b)[1..] == a[1..] + b;
      ItagLinesAppend(a[1..], b);
    }
  }

  /** A single line is kept, with its itag, exactly when `ItagLine` accepts it. */
  lemma ItagLinesSingle(line: string)
    ensures ItagLinesOf([line]) == (if ItagLine(line).Some? then [ItagLine(line).value] else [])
  {
    assert [line][1..] == [];
  }

  /** `get_m3u8`: the body fetched from `url`, split on `\n`, with its itag lines picked out. */
  function GetM3u8(url: string, fetch: string -> Result<string, VideoError>): (r: Result<seq<(string, string)>, VideoError>)
    ensures fetch(url).Err? ==> r == Err(fetch(url).error)
    ensures fetch(url).Ok? ==> r == Ok(ItagLinesOf(Split(fetch(url).value, "\n")))
  {
    match fetch(url)
    case Err(e) => Err(e)
    case Ok(body) => Ok(ItagLinesOf(Split(body, "\n")))
  }

  /** A body made of lines gives the itag lines of those lines, whatever else surrounds them. */
  lemma M3u8OfLines(url: string, fetch: string -> Result<string, VideoError>, lines: seq<string>)
    requires |lines| >= 1 && forall k :: 0 <= k < |lines| ==> Avoids(lines[k], '\n')
    requires fetch(url) == Ok(Join(lines, "\n"))
    ensures GetM3u8(url, fetch) == Ok(ItagLinesOf(lines))
  {
    SplitJoin(lines, "\n");
  }

  // ---------------------------------------------------------------------
  // get_info
  // ---------------------------------------------------------------------

  /** The parts of `VideoInfo` the model follows. */
  datatype VideoInfo = VideoInfo(dashManifestUrl: Option<string>, hlsManifestUrl: Option<string>, formats: seq<VideoFormat>)

  /**
   * The live formats `get_info` adds: those `parseLive`
   * (`parse_live_video_formats`) makes of the itag lines, when there is an
   * HLS manifest and it could be read; nothing otherwise.
   */
  function LiveFormats(info: VideoInfo, fetch: string -> Result<string, VideoError>,
                       parseLive: seq<(string, string)> -> seq<VideoFormat>): seq<VideoFormat> {
    if info.hlsManifestUrl.None? then []
    else
      match GetM3u8(info.hlsManifestUrl.value, fetch)
      case Err(_) => []
      case Ok(lines) => parseLive(lines)
  }

  /** The formats of `get_info`: the basic ones and the live ones, sorted by `sort_formats`. */
  function InfoFormats(info: VideoInfo, fetch: string -> Result<string, VideoError>,
                       parseLive: seq<(string, string)> -> seq<VideoFormat>): (r: seq<VideoFormat>)
    ensures multiset(r) == multiset(info.formats + LiveFormats(info, fetch, parseLive))
    ensures Sorted(r, FORMAT_KEYS)
  {
    SortSorted(info.formats + LiveFormats(info, fetch, parseLive), FORMAT_KEYS);
    Sort(info.formats + LiveFormats(info, fetch, parseLive), FORMAT_KEYS)
  }

  /** `get_info`: extend the basic formats with the live ones, then sort the whole list. */
  method GetInfo(basic: Result<VideoInfo, VideoError>, fetch: string -> Result<string, VideoError>,
                 parseLive: seq<(string, string)> -> seq<VideoFormat>) returns (r: Result<VideoInfo, VideoError>)
    ensures basic.Err? ==> r == Err(basic.error)
    ensures basic.Ok? ==> r.Ok? && r.value == basic.value.(formats := InfoFormats(basic.value, fetch, parseLive))
  {
    if basic.Err? {
      return Err(basic.error);
    }
    var info := basic.value;
    var formats := info.formats;
    if info.hlsManifestUrl.Some? {
      var unformatted := GetM3u8(info.hlsManifestUrl.value, fetch);
      if unformatted.Ok? {
        formats := formats + parseLive(unformatted.value);
      }
    }
    assert formats == info.formats + LiveFormats(info, fetch, parseLive);
    formats := SortBy(formats, FORMAT_KEYS);
    return Ok(info.(formats := formats));
  }

  /** In a sorted format list every HLS format comes before every other format. */
  lemma {:induction false} HlsFormatsLead(r: seq<VideoFormat>, i: nat, j: nat)
    requires Sorted(r, FORMAT_KEYS) && i < j < |r| && r[j].isHls
    ensures r[i].isHls
    decreases j - i
  {
    HlsOnlyAfterHls(r[j - 1], r[j]);
    if i < j - 1 {
      HlsFormatsLead(r, i, j - 1);
    }
  }

  // ---------------------------------------------------------------------
  // stream
  // ---------------------------------------------------------------------

  /** The stream `stream` opens: a live stream over an HLS playlist, or a ranged download. */
  datatype StreamPlan =
    | LivePlan(streamUrl: string)
    | NonLivePlan(link: string, contentLength: nat, dlChunkSize: nat, start: nat, end: nat)

  /** `content_length` parsed as `u64`, 0 when absent or unparsable. */
  function DeclaredLength(f: VideoFormat): nat {
    ParseUnsigned(f.contentLength.UnwrapOr("0"), U64_MAX).UnwrapOr(0)
  }

  /**
   * `Video::stream` after `get_info`: `chosen`, what `choose_format`
   * returns for the video's formats, decides the stream. `liveFeature` is the crate's `live` feature,
   * `defaultDlChunkSize` is `DEFAULT_DL_CHUNK_SIZE`, and `probe` is the
   * request for the link's content length (`None` when the response has
   * none).
   */
  function StreamSetup(chosen: Result<VideoFormat, VideoError>, options: VideoOptions, liveFeature: bool, defaultDlChunkSize: nat,
                       probe: string -> Result<Option<nat>, VideoError>): (r: Result<StreamPlan, VideoError>)
    ensures chosen.Err? ==> r == Err(VideoSourceNotFound)
    ensures chosen.Ok? && chosen.value.url == "" ==> r == Err(VideoSourceNotFound)
    ensures r.Ok? ==> chosen.Ok? && (if r.value.LivePlan? then r.value.streamUrl else r.value.link) == chosen.value.url
    ensures var c := chosen;
      c.Ok? && c.value.url != "" && c.value.isHls ==>
        r == (if liveFeature then Ok(LivePlan(c.value.url)) else Err(LiveStreamNotSupported))
    ensures var c := chosen;
      c.Ok? && c.value.url != "" && !c.value.isHls && DeclaredLength(c.value) == 0 ==>
        && (probe(c.value.url).Err? ==> r == Err(probe(c.value.url).error))
        && (probe(c.value.url) == Ok(None) ==> r == Err(VideoNotFound))
    ensures var c := chosen; var dl := options.downloadOptions.dlChunkSize.UnwrapOr(defaultDlChunkSize);
      c.Ok? && c.value.url != "" && !c.value.isHls && DeclaredLength(c.value) > 0 ==>
        r == Ok(NonLivePlan(c.value.url, DeclaredLength(c.value), dl, 0, dl))
    ensures var c := chosen; var dl := options.downloadOptions.dlChunkSize.UnwrapOr(defaultDlChunkSize);
      c.Ok? && c.value.url != "" && !c.value.isHls && DeclaredLength(c.value) == 0
        && probe(c.value.url).Ok? && probe(c.value.url).value.Some? ==>
        r == Ok(NonLivePlan(c.value.url, probe(c.value.url).value.value, dl, 0, dl))
    ensures r.Ok? && r.value.NonLivePlan? ==>
      var c := chosen.value;
      var dl := options.downloadOptions.dlChunkSize.UnwrapOr(defaultDlChunkSize);
      && r.value.link == c.url && r.value.link != "" && !c.isHls
      && r.value.start == 0 && r.value.end == dl && r.value.dlChunkSize == dl
      && r.value.contentLength == (if DeclaredLength(c) > 0 then DeclaredLength(c) else probe(c.url).value.value)
  {
    match chosen
    case Err(_) => Err(VideoSourceNotFound)
    case Ok(format) =>
      var link := format.url;
      if link == "" then Err(VideoSourceNotFound)
      else if format.isHls then
        if liveFeature then Ok(LivePlan(link)) else Err(LiveStreamNotSupported)
      else
        var dl := options.downloadOptions.dlChunkSize.UnwrapOr(defaultDlChunkSize);
        var start := 0;
        var end := start + dl;
        var declared := DeclaredLength(format);
        if declared > 0 then Ok(NonLivePlan(link, declared, dl, start, end))
        else
          match probe(link)
          case Err(e) => Err(e)
          case Ok(None) => Err(VideoNotFound)
          case Ok(Some(n)) => Ok(NonLivePlan(link, n, dl, start, end))
  }

  /** The stream always reads one of the video's own formats, one that passes the options' filter. */
  lemma StreamReadsChosenFormat(formats: seq<VideoFormat>, options: VideoOptions, liveFeature: bool, defaultDlChunkSize: nat,
                                probe: string -> Result<Option<nat>, VideoError>)
    requires StreamSetup(Chosen(formats, options), options, liveFeature, defaultDlChunkSize, probe).Ok?
    ensures var p := StreamSetup(Chosen(formats, options), options, liveFeature, defaultDlChunkSize, probe).value;
      exists f :: f in formats && Keeps(options.filter, f) && f.url == (if p.LivePlan? then p.streamUrl else p.link)
  {
    var c := Chosen(formats, options);
    var f := c.value;
    assert f in formats && Keeps(options.filter, f) by {
      ChosenIsCandidate(formats, options);
    }
  }
}
