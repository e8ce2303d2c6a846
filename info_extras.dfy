/**
 * The watch-page extras: the storyboard list built from the player's
 * storyboard spec, and the related-video list built from the watch-next
 * data (`get_storyboards`, `parse_related_video`, `get_related_videos`).
 * The JSON around both is reduced to the fields these functions read.
 */
module InfoExtras {
  import opened Wrappers
  import opened Text
  import opened UrlForm
  import Info

  // ---------------------------------------------------------------------
  // Storyboards
  // ---------------------------------------------------------------------

  datatype StoryBoard = StoryBoard(
    templateUrl: string,
    thumbnailWidth: int,
    thumbnailHeight: int,
    thumbnailCount: int,
    interval: int,
    columns: int,
    rows: int,
    storyboardCount: int)

  /** The URL the storyboards are built on when the spec's first part does not parse. */
  const DEFAULT_STORYBOARD_URL := ParsedUrl("https://i.ytimg.com/", None, None)

  /** The `k`-th `#`-field of a part, or `"0"` when the part has fewer fields. */
  function FieldOr0(fields: seq<string>, k: nat): (f: string)
    ensures k < |fields| ==> f == fields[k]
    ensures k >= |fields| ==> f == "0"
  {
    if k < |fields| then fields[k] else "0"
  }

  /** A numeric field: the `k`-th field parsed as `i32`, or 0 when it is missing or does not parse. */
  function NumField(fields: seq<string>, k: nat): (n: int)
    ensures I32_MIN <= n <= I32_MAX
  {
    ParseI32(FieldOr0(fields, k)).UnwrapOr(0)
  }

  /** A missing field reads as 0: the default text `"0"` parses to zero. */
  lemma MissingFieldIsZero(fields: seq<string>, k: nat)
    requires k >= |fields|
    ensures NumField(fields, k) == 0
  {
    assert FieldOr0(fields, k) == "0";
    assert AllDigits("0") && DigitsValue("0") == 0 by {
      assert "0"[1..] == "";
    }
  }

  function Abs(x: int): nat {
    if x < 0 then -x else x
  }

  /**
   * Rust's `/` on signed integers: the quotient rounded toward zero. It is
   * the one quotient whose remainder is smaller than the divisor and has
   * the sign of the dividend.
   */
  function TruncDiv(a: int, b: int): (q: int)
    requires b != 0
    ensures var rem := a - q * b; Abs(rem) < Abs(b) && (rem == 0 || (rem > 0 <==> a > 0))
  {
    if a >= 0 && b > 0 then a / b
    else if a >= 0 then -(a / -b)
    else if b > 0 then -((-a) / b)
    else (-a) / (-b)
  }

  /** The `#`-fields of one storyboard part. */
  function Fields(part: string): seq<string> {
    Split(part, "#")
  }

  /**
   * A part whose `thumbnail_count / (columns * rows)` does not panic: the
   * product is non-zero, fits in `i32`, and is not `-1` under `i32::MIN`.
   */
  predicate PartDefined(part: string) {
    var f := Fields(part);
    var cells := NumField(f, 3) * NumField(f, 4);
    cells != 0 && I32_MIN <= cells <= I32_MAX && !(NumField(f, 2) == I32_MIN && cells == -1)
  }

  /** Every part can be read without a panic. */
  predicate AllPartsDefined(parts: seq<string>) {
    forall k :: 0 <= k < |parts| ==> PartDefined(parts[k])
  }

  /** The storyboard parts: every `|`-piece after the first, which is the URL. */
  function Parts(spec: string): seq<string> {
    Split(spec, "|")[1..]
  }

  /** A spec every one of whose parts is defined. */
  predicate SpecDefined(spec: Option<string>) {
    spec.None? || AllPartsDefined(Parts(spec.value))
  }

  /** The URL the parts are appended to: the parsed first piece, or the default one. */
  function BaseUrl(spec: string, parseUrl: string -> Option<ParsedUrl>): ParsedUrl {
    parseUrl(Split(spec, "|")[0]).UnwrapOr(DEFAULT_STORYBOARD_URL)
  }

  /** The `sigh` value of a part: its eighth field, `"0"` when missing. */
  function SighOf(part: string): string {
    FieldOr0(Fields(part), 7)
  }

  /** The `sigh=` pairs of the given parts, in order. */
  function SighPairs(parts: seq<string>, encode: string -> string): (pairs: seq<string>)
    ensures |pairs| == |parts|
    ensures forall k :: 0 <= k < |parts| ==> pairs[k] == Pair("sigh", SighOf(parts[k]), encode)
  {
    if parts == [] then []
    else SighPairs(parts[..|parts| - 1], encode) + [Pair("sigh", SighOf(parts[|parts| - 1]), encode)]
  }

  /** The shared URL once the first `n` parts have appended their `sigh` pair. */
  function UrlAfter(base: ParsedUrl, parts: seq<string>, n: nat, encode: string -> string): ParsedUrl
    requires n <= |parts|
  {
    if n == 0 then base
    else AppendPair(UrlAfter(base, parts, n - 1, encode), Pair("sigh", SighOf(parts[n - 1]), encode))
  }

  /** The shared URL is the base URL with the `sigh` pairs of the first `n` parts appended in order. */
  lemma {:induction false} UrlAfterPairs(base: ParsedUrl, parts: seq<string>, n: nat, encode: string -> string)
    requires n <= |parts|
    ensures UrlAfter(base, parts, n, encode) == AppendPairs(base, SighPairs(parts[..n], encode))
  {
    if n > 0 {
      UrlAfterPairs(base, parts, n - 1, encode);
      assert parts[..n][..n - 1] == parts[..n - 1];
    }
  }

  /**
   * The storyboard of part `i`, once the shared URL is `url`: the numeric
   * fields in their positions, the count of sheets, and the template with
   * `$L` replaced by the index and `$N` by the seventh field.
   */
  function Board(url: ParsedUrl, part: string, i: nat): (b: StoryBoard)
    requires PartDefined(part)
  {
    var f := Fields(part);
    StoryBoard(
      Replace(Replace(Serialize(url), "$L", NatToString(i)), "$N", FieldOr0(f, 6)),
      NumField(f, 0), NumField(f, 1), NumField(f, 2), NumField(f, 5), NumField(f, 3), NumField(f, 4),
      TruncDiv(NumField(f, 2), NumField(f, 3) * NumField(f, 4)))
  }

  /** The storyboards of the first `n` parts. */
  function Boards(base: ParsedUrl, parts: seq<string>, n: nat, encode: string -> string): (r: seq<StoryBoard>)
    requires n <= |parts|
    requires AllPartsDefined(parts)
    ensures |r| == n
  {
    if n == 0 then []
    else Boards(base, parts, n - 1, encode) + [BoardAt(base, parts, n - 1, encode)]
  }

  /** The storyboard of part `i`, with the URL as the parts up to and including it left it. */
  function BoardAt(base: ParsedUrl, parts: seq<string>, i: nat, encode: string -> string): StoryBoard
    requires i < |parts| && PartDefined(parts[i])
  {
    Board(UrlAfter(base, parts, i + 1, encode), parts[i], i)
  }

  /** `get_storyboards` */
  function StoryboardsOf(spec: Option<string>, parseUrl: string -> Option<ParsedUrl>, encode: string -> string)
    : (r: Option<seq<StoryBoard>>)
    requires SpecDefined(spec)
    ensures r.Some?
    ensures spec.None? ==> r.value == []
    ensures spec.Some? ==> |r.value| == |Split(spec.value, "|")| - 1
  {
    if spec.None? then Some([])
    else
      var parts := Parts(spec.value);
      Some(Boards(BaseUrl(spec.value, parseUrl), parts, |parts|, encode))
  }

  /** The imperative `get_storyboards`: drop the URL piece, then one storyboard per part. */
  method GetStoryboards(spec: Option<string>, parseUrl: string -> Option<ParsedUrl>, encode: string -> string)
    returns (r: Option<seq<StoryBoard>>)
    requires SpecDefined(spec)
    ensures r == StoryboardsOf(spec, parseUrl, encode)
  {
    if spec.None? {
      return Some([]);
    }
    var parts := Split(spec.value, "|");
    var first := parts[0];
    parts := parts[1..];
    var url := parseUrl(first).UnwrapOr(DEFAULT_STORYBOARD_URL);
    assert parts == Parts(spec.value);
    var boards := BuildBoards(url, parts, encode);
    return Some(boards);
  }

  /** The loop of `get_storyboards`: one storyboard per part, the shared URL growing by one pair each time. */
  method BuildBoards(base: ParsedUrl, parts: seq<string>, encode: string -> string) returns (boards: seq<StoryBoard>)
    requires AllPartsDefined(parts)
    ensures boards == Boards(base, parts, |parts|, encode)
  {
    var url := base;
    boards := [];
    var i := 0;
    while i < |parts|
      invariant i <= |parts|
      invariant url == UrlAfter(base, parts, i, encode)
      invariant boards == Boards(base, parts, i, encode)
    {
      url, boards := AddBoard(base, parts, i, encode, url, boards);
      i := i + 1;
    }
  }

  /** The loop body: the next storyboard appended, the URL advanced past its part. */
  method AddBoard(ghost base: ParsedUrl, parts: seq<string>, i: nat, encode: string -> string,
                  url0: ParsedUrl, boards0: seq<StoryBoard>) returns (url: ParsedUrl, boards: seq<StoryBoard>)
    requires i < |parts|
    requires AllPartsDefined(parts)
    requires url0 == UrlAfter(base, parts, i, encode) && boards0 == Boards(base, parts, i, encode)
    ensures url == UrlAfter(base, parts, i + 1, encode) && boards == Boards(base, parts, i + 1, encode)
  {
    var board;
    url, board := NextBoard(url0, parts[i], i, encode);
    BoardsSnoc(base, parts, i, encode, url, board);
    boards := boards0 + [board];
  }

  lemma BoardsSnoc(base: ParsedUrl, parts: seq<string>, i: nat, encode: string -> string, url: ParsedUrl, board: StoryBoard)
    requires i < |parts|
    requires AllPartsDefined(parts)
    requires url == AppendPair(UrlAfter(base, parts, i, encode), Pair("sigh", SighOf(parts[i]), encode))
    requires board == Board(url, parts[i], i)
    ensures url == UrlAfter(base, parts, i + 1, encode)
    ensures Boards(base, parts, i + 1, encode) == Boards(base, parts, i, encode) + [board]
  {
  }

  /** One round of the loop: append the part's `sigh` pair, then build its storyboard from the new URL. */
  method NextBoard(url0: ParsedUrl, part: string, i: nat, encode: string -> string) returns (url: ParsedUrl, board: StoryBoard)
    requires PartDefined(part)
    ensures url == AppendPair(url0, Pair("sigh", SighOf(part), encode))
    ensures board == Board(url, part, i)
  {
    var f := Split(part, "#");
    var thumbnailCount := ParseI32(FieldOr0(f, 2)).UnwrapOr(0);
    var columns := ParseI32(FieldOr0(f, 3)).UnwrapOr(0);
    var rows := ParseI32(FieldOr0(f, 4)).UnwrapOr(0);
    url := AppendPair(url0, Pair("sigh", FieldOr0(f, 7), encode));
    var storyboardCount := TruncDiv(thumbnailCount, columns * rows);
    var templateUrl := Replace(Replace(Serialize(url), "$L", NatToString(i)), "$N", FieldOr0(f, 6));
    board := StoryBoard(
      templateUrl,
      ParseI32(FieldOr0(f, 0)).UnwrapOr(0), ParseI32(FieldOr0(f, 1)).UnwrapOr(0), thumbnailCount,
      ParseI32(FieldOr0(f, 5)).UnwrapOr(0), columns, rows, storyboardCount);
  }

  /** The `i`-th storyboard is built from the `i`-th part, with the URL as `i + 1` parts left it. */
  lemma {:induction false} BoardsAt(base: ParsedUrl, parts: seq<string>, n: nat, encode: string -> string, i: nat)
    requires n <= |parts|
    requires AllPartsDefined(parts)
    requires i < n
    ensures Boards(base, parts, n, encode)[i] == BoardAt(base, parts, i, encode)
    decreases n
  {
    var prior := Boards(base, parts, n - 1, encode);
    assert Boards(base, parts, n, encode) == prior + [BoardAt(base, parts, n - 1, encode)];
    if i < n - 1 {
      BoardsAt(base, parts, n - 1, encode, i);
      assert Boards(base, parts, n, encode)[i] == prior[i];
    }
  }

  /**
   * Every part has its own storyboard, in order: the `i`-th one carries
   * the `i`-th part's numeric fields, and its template is the shared URL
   * with one `sigh` pair per part up to and including its own.
   */
  lemma StoryboardAt(spec: string, parseUrl: string -> Option<ParsedUrl>, encode: string -> string, i: nat)
    requires SpecDefined(Some(spec))
    requires i < |Parts(spec)|
    ensures var b := StoryboardsOf(Some(spec), parseUrl, encode).value[i];
      var f := Fields(Parts(spec)[i]);
      var url := UrlAfter(BaseUrl(spec, parseUrl), Parts(spec), i + 1, encode);
      && b.thumbnailWidth == NumField(f, 0) && b.thumbnailHeight == NumField(f, 1)
      && b.thumbnailCount == NumField(f, 2) && b.columns == NumField(f, 3)
      && b.rows == NumField(f, 4) && b.interval == NumField(f, 5)
      && b.storyboardCount == TruncDiv(b.thumbnailCount, b.columns * b.rows)
      && b.templateUrl == Replace(Replace(Serialize(url), "$L", NatToString(i)), "$N", FieldOr0(f, 6))
      && url.query == Some(Extend(BaseUrl(spec, parseUrl).query, Join(SighPairs(Parts(spec)[..i + 1], encode), "&")))
  {
    var parts := Parts(spec);
    BoardsAt(BaseUrl(spec, parseUrl), parts, |parts|, encode, i);
    UrlAfterPairs(BaseUrl(spec, parseUrl), parts, i + 1, encode);
    SighPairsNonEmpty(parts[..i + 1], encode);
    AppendPairsQuery(BaseUrl(spec, parseUrl), SighPairs(parts[..i + 1], encode));
  }

  /** Every `sigh` pair holds at least its `=`. */
  lemma SighPairsNonEmpty(parts: seq<string>, encode: string -> string)
    ensures forall k :: 0 <= k < |parts| ==> SighPairs(parts, encode)[k] != ""
  {
    forall k | 0 <= k < |parts|
      ensures SighPairs(parts, encode)[k] != ""
    {
      var p := SighPairs(parts, encode)[k];
      assert p[|encode("sigh")|] == '=';
    }
  }

  // ---------------------------------------------------------------------
  // Related videos
  // ---------------------------------------------------------------------

  /** One decoded entry of `relatedVideoArgs`: the video id and its short view count. */
  datatype RvsParams = RvsParams(id: string, shortViewCountText: string)

  /** `shortBylineText.runs[0].navigationEndpoint.browseEndpoint`: the channel id and its base URL, as text. */
  datatype BrowseEndpoint = BrowseEndpoint(browseId: Option<string>, canonicalBaseUrl: Option<string>)

  /**
   * A `compactVideoRenderer`: each text field is None when absent and
   * carries `get_text`'s value (`""` when it is not text) when present;
   * `videoId` is None when absent or not a string.
   */
  datatype RelatedDetails = RelatedDetails(
    videoId: Option<string>,
    viewCountText: Option<string>,
    shortViewCountText: Option<string>,
    browseEndpoint: Option<BrowseEndpoint>)

  datatype Author = Author(id: string, user: string, channelUrl: string, externalChannelUrl: string, userUrl: string)

  datatype RelatedVideo = RelatedVideo(
    id: string,
    url: string,
    author: Option<Author>,
    shortViewCountText: string,
    viewCount: string)

  /** The `first` closure: the text starts with an ASCII digit. */
  predicate FirstIsDigit(s: string) {
    |s| > 0 && IsDigit(s[0])
  }

  /** The text before the first space. */
  function FirstWord(s: string): (w: string)
    ensures |w| <= |s| && w == s[..|w|]
    ensures Avoids(w, ' ')
  {
    SplitPiecesAvoidSep(s, " ");
    NoNeedleAvoids(Split(s, " ")[0], ' ');
    JoinSplit(s, " ");
    JoinPrefix(Split(s, " "), " ");
    Split(s, " ")[0]
  }

  /** A join begins with its first piece. */
  lemma JoinPrefix(parts: seq<string>, sep: string)
    requires parts != []
    ensures |parts[0]| <= |Join(parts, sep)| && Join(parts, sep)[..|parts[0]|] == parts[0]
  {
  }

  /** The first decoded argument record for video `id`, if any. */
  function FindRvs(rvs: seq<RvsParams>, id: string): (r: Option<nat>)
    ensures r.Some? ==> r.value < |rvs| && rvs[r.value].id == id
    ensures r.Some? ==> forall k :: 0 <= k < r.value ==> rvs[k].id != id
    ensures r.None? ==> forall k :: 0 <= k < |rvs| ==> rvs[k].id != id
  {
    if rvs == [] then None
    else if rvs[0].id == id then Some(0)
    else match FindRvs(rvs[1..], id)
      case None => None
      case Some(k) => Some(k + 1)
  }

  /** The short view count: the renderer's own, or, when that does not start with a digit, the argument record's. */
  function ShortViewCount(details: RelatedDetails, rvs: seq<RvsParams>): string {
    var own := details.shortViewCountText.UnwrapOr("0");
    if FirstIsDigit(own) then own
    else match FindRvs(rvs, details.videoId.UnwrapOr("0"))
      case None => own
      case Some(k) => rvs[k].shortViewCountText
  }

  /** The channel's user name: the last `/`-piece of its base URL, `""` without one. */
  function AuthorUser(b: BrowseEndpoint): (user: string)
    ensures Avoids(user, '/')
  {
    match b.canonicalBaseUrl
    case None => ""
    case Some(u) =>
      var pieces := Split(u, "/");
      SplitPiecesAvoidSep(u, "/");
      NoNeedleAvoids(pieces[|pieces| - 1], '/');
      pieces[|pieces| - 1]
  }

  const CHANNEL_URL_PREFIX := "https://www.youtube.com/channel/"
  const USER_URL_PREFIX := "https://www.youtube.com/"

  /** The author block, present exactly when the byline has a browse endpoint. */
  function AuthorOf(b: BrowseEndpoint): (a: Author)
    ensures a.userUrl != "" <==> |a.user| > 0 && a.user[0] == '@'
    ensures a.userUrl != "" ==> a.userUrl == USER_URL_PREFIX + a.user
    ensures a.channelUrl != "" <==> a.id != ""
    ensures a.channelUrl != "" ==> a.channelUrl == CHANNEL_URL_PREFIX + a.id
    ensures a.externalChannelUrl == a.channelUrl
  {
    var id := b.browseId.UnwrapOr("");
    var user := AuthorUser(b);
    var channelUrl := if id != "" then CHANNEL_URL_PREFIX + id else "";
    Author(id, user, channelUrl, channelUrl,
      if user != "" && user[0] == '@' then USER_URL_PREFIX + user else "")
  }

  /** `parse_related_video`: it always yields a video. */
  function ParseRelatedVideo(details: RelatedDetails, rvs: seq<RvsParams>): (v: RelatedVideo)
    ensures Avoids(v.viewCount, ',')
    ensures Avoids(v.shortViewCountText, ' ')
    ensures v.url != "" <==> v.id != ""
    ensures v.url != "" ==> v.url == Info.BASE_URL + v.id
    ensures v.author.Some? <==> details.browseEndpoint.Some?
  {
    var short := ShortViewCount(details, rvs);
    var view := details.viewCountText.UnwrapOr("0");
    var viewWord := if FirstIsDigit(view) then FirstWord(view) else FirstWord(short);
    var id := details.videoId.UnwrapOr("");
    RelatedVideo(
      id,
      if id != "" then Info.BASE_URL + id else "",
      if details.browseEndpoint.Some? then Some(AuthorOf(details.browseEndpoint.value)) else None,
      FirstWord(short),
      RemoveChar(viewWord, ','))
  }

  /** A renderer without a digit-led short count takes the count of the first argument record for its id. */
  lemma ShortCountFromArgs(details: RelatedDetails, rvs: seq<RvsParams>, k: nat)
    requires !FirstIsDigit(details.shortViewCountText.UnwrapOr("0"))
    requires k < |rvs| && rvs[k].id == details.videoId.UnwrapOr("0")
    requires forall j :: 0 <= j < k ==> rvs[j].id != rvs[k].id
    ensures ParseRelatedVideo(details, rvs).shortViewCountText == FirstWord(rvs[k].shortViewCountText)
  {
    var r := FindRvs(rvs, rvs[k].id);
    assert r == Some(k);
  }

  /**
   * The view count is the first word of the view text when that starts
   * with a digit, of the short count otherwise, with its commas removed
   * and every other character kept in order.
   */
  lemma ViewCountWord(details: RelatedDetails, rvs: seq<RvsParams>)
    ensures var view := details.viewCountText.UnwrapOr("0");
      var word := if FirstIsDigit(view) then FirstWord(view) else FirstWord(ShortViewCount(details, rvs));
      ParseRelatedVideo(details, rvs).viewCount == RemoveChar(word, ',')
      && (Avoids(word, ',') ==> ParseRelatedVideo(details, rvs).viewCount == word)
  {
    var view := details.viewCountText.UnwrapOr("0");
    var word := if FirstIsDigit(view) then FirstWord(view) else FirstWord(ShortViewCount(details, rvs));
    if Avoids(word, ',') {
      RemoveCharAbsent(word, ',');
    }
  }

  /** A `contents` entry of an autoplay renderer. */
  datatype AutoplayContent = ContentVideo(details: RelatedDetails) | OtherContent

  /**
   * One secondary result: a `compactVideoRenderer` (a renderer that is not
   * an object reads as one with no fields), a `compactAutoplayRenderer`
   * with its `contents` (None when absent, empty when not an array), or
   * anything else.
   */
  datatype SecondaryResult =
    | CompactVideo(details: RelatedDetails)
    | CompactAutoplay(contents: Option<seq<AutoplayContent>>)
    | OtherResult

  /** `parse_related_video` with the argument records fixed. */
  function Parser(rvs: seq<RvsParams>): RelatedDetails -> RelatedVideo {
    (d: RelatedDetails) => ParseRelatedVideo(d, rvs)
  }

  /** The videos of an autoplay renderer's contents, in order. */
  function AutoplayVideos(contents: seq<AutoplayContent>, parse: RelatedDetails -> RelatedVideo): seq<RelatedVideo> {
    if contents == [] then []
    else
      (if contents[0].ContentVideo? then [parse(contents[0].details)] else [])
      + AutoplayVideos(contents[1..], parse)
  }

  /** The videos one secondary result contributes. */
  function ResultVideos(result: SecondaryResult, parse: RelatedDetails -> RelatedVideo): seq<RelatedVideo> {
    match result
    case CompactVideo(d) => [parse(d)]
    case CompactAutoplay(contents) => if contents.Some? then AutoplayVideos(contents.value, parse) else []
    case OtherResult => []
  }

  /** `get_related_videos`, as a specification: each result's videos, in the order of the results. */
  function RelatedOf(results: seq<SecondaryResult>, parse: RelatedDetails -> RelatedVideo): seq<RelatedVideo> {
    if results == [] then []
    else ResultVideos(results[0], parse) + RelatedOf(results[1..], parse)
  }

  /** The number of renderers among the results, nested ones included. */
  function RendererCount(results: seq<SecondaryResult>): nat {
    if results == [] then 0
    else
      (match results[0]
       case CompactVideo(_) => 1
       case CompactAutoplay(contents) => if contents.Some? then ContentRendererCount(contents.value) else 0
       case OtherResult => 0)
      + RendererCount(results[1..])
  }

  function ContentRendererCount(contents: seq<AutoplayContent>): nat {
    if contents == [] then 0
    else (if contents[0].ContentVideo? then 1 else 0) + ContentRendererCount(contents[1..])
  }

  lemma {:induction false} AutoplayVideosAppend(a: seq<AutoplayContent>, b: seq<AutoplayContent>, parse: RelatedDetails -> RelatedVideo)
    ensures AutoplayVideos(a + b, parse) == AutoplayVideos(a, parse) + AutoplayVideos(b, parse)
    decreases |a|
  {
    if a == [] {
      assert a + b == b;
    } else {
      var head := if a[0].ContentVideo? then [parse(a[0].details)] else [];
      assert (a + b)[0] == a[0];
      assert (a + b)[1..] == a[1..] + b;
      AutoplayVideosAppend(a[1..], b, parse);
      Reassociate(head, AutoplayVideos(a[1..], parse), AutoplayVideos(b, parse));
    }
  }

  lemma Reassociate<T>(a: seq<T>, b: seq<T>, c: seq<T>)
    ensures a + (b + c) == a + b + c
  {
  }

  /** Results taken together give their videos one after the other. */
  lemma {:induction false} RelatedOfAppend(a: seq<SecondaryResult>, b: seq<SecondaryResult>, parse: RelatedDetails -> RelatedVideo)
    ensures RelatedOf(a + b, parse) == RelatedOf(a, parse) + RelatedOf(b, parse)
    decreases |a|
  {
    if a == [] {
      assert a + b == b;
    } else {
      assert (a + b)[0] == a[0];
      assert (a + b)[1..] == a[1..] + b;
      RelatedOfAppend(a[1..], b, parse);
      Reassociate(ResultVideos(a[0], parse), RelatedOf(a[1..], parse), RelatedOf(b, parse));
    }
  }

  /** One more result appends its videos. */
  lemma RelatedOfSnoc(results: seq<SecondaryResult>, i: nat, parse: RelatedDetails -> RelatedVideo)
    requires i < |results|
    ensures RelatedOf(results[..i + 1], parse) == RelatedOf(results[..i], parse) + ResultVideos(results[i], parse)
  {
    assert results[..i + 1] == results[..i] + [results[i]];
    RelatedOfAppend(results[..i], [results[i]], parse);
    assert [results[i]][1..] == [];
  }

  /** Every renderer yields exactly one video: nothing is dropped. */
  lemma {:induction false} RelatedCount(results: seq<SecondaryResult>, parse: RelatedDetails -> RelatedVideo)
    ensures |RelatedOf(results, parse)| == RendererCount(results)
    decreases |results|
  {
    if results != [] {
      RelatedCount(results[1..], parse);
      if results[0].CompactAutoplay? && results[0].contents.Some? {
        AutoplayCount(results[0].contents.value, parse);
      }
    }
  }

  lemma {:induction false} AutoplayCount(contents: seq<AutoplayContent>, parse: RelatedDetails -> RelatedVideo)
    ensures |AutoplayVideos(contents, parse)| == ContentRendererCount(contents)
    decreases |contents|
  {
    if contents != [] {
      AutoplayCount(contents[1..], parse);
    }
  }

  /** The inner loop of `get_related_videos`: every renderer among an autoplay renderer's contents pushed in order. */
  method PushAutoplay(contents: seq<AutoplayContent>, rvs: seq<RvsParams>, videos: seq<RelatedVideo>)
    returns (out: seq<RelatedVideo>)
    ensures out == videos + AutoplayVideos(contents, Parser(rvs))
  {
    out := videos;
    var j := 0;
    while j < |contents|
      invariant j <= |contents|
      invariant out == videos + AutoplayVideos(contents[..j], Parser(rvs))
    {
      if contents[j].ContentVideo? {
        out := out + [ParseRelatedVideo(contents[j].details, rvs)];
      }
      AutoplayVideosAppend(contents[..j], [contents[j]], Parser(rvs));
      assert contents[..j + 1] == contents[..j] + [contents[j]];
      j := j + 1;
    }
    assert contents[..j] == contents;
  }

  /** One round of the collecting loop of `get_related_videos`: the videos of one secondary result pushed. */
  method PushResult(result: SecondaryResult, rvs: seq<RvsParams>, videos: seq<RelatedVideo>) returns (out: seq<RelatedVideo>)
    ensures out == videos + ResultVideos(result, Parser(rvs))
  {
    out := videos;
    match result {
      case CompactVideo(details) =>
        out := out + [ParseRelatedVideo(details, rvs)];
      case CompactAutoplay(contents) =>
        if contents.Some? {
          out := PushAutoplay(contents.value, rvs, out);
        }
      case OtherResult =>
    }
  }

  /** The collecting loop of `get_related_videos`. */
  method GetRelatedVideos(results: seq<SecondaryResult>, rvs: seq<RvsParams>) returns (r: Option<seq<RelatedVideo>>)
    ensures r == Some(RelatedOf(results, Parser(rvs)))
  {
    var videos: seq<RelatedVideo> := [];
    var i := 0;
    while i < |results|
      invariant i <= |results|
      invariant videos == RelatedOf(results[..i], Parser(rvs))
    {
      ghost var before := videos;
      videos := PushResult(results[i], rvs, videos);
      RelatedOfSnoc(results, i, Parser(rvs));
      assert videos == before + ResultVideos(results[i], Parser(rvs));
      i := i + 1;
    }
    assert results[..i] == results;
    return Some(videos);
  }
}
