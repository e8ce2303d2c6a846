/**
 * `Playlist::next` and `Playlist::fetch` (src/search/youtube.rs): paging
 * through a playlist with its continuation token. The `browse` request
 * (an HTTP POST whose JSON answer is read at
 * `onResponseReceivedActions[0].appendContinuationItemsAction.continuationItems`)
 * is a parameter: what YouTube answers for a given continuation.
 */
module PlaylistPaging {
  import opened Wrappers
  import opened Errors
  import opened Text
  import opened SearchResults

  /** The continuation a playlist keeps between pages. */
  datatype Continuation = Continuation(api: Option<string>, token: Option<string>, clientVersion: Option<string>)

  /** Why a browse request gave no JSON: the request failed, or the body was not JSON. */
  datatype BrowseFailure = RequestFailed | BodyNotJson

  /** What the browse endpoint answers for a continuation. */
  type Browse = Continuation -> Result<Contents, BrowseFailure>

  /** The two fields of `Playlist` that paging changes. */
  datatype PlaylistState = PlaylistState(videos: seq<PlaylistVideo>, continuation: Option<Continuation>)

  /** There is a continuation and it carries a token. */
  predicate HasToken(c: Option<Continuation>) {
    c.Some? && c.value.token.Some?
  }

  /** The error `next` reports for a failed browse request. */
  function BrowseError(f: BrowseFailure): (e: VideoError)
    ensures e == ReqwestMiddleware || e == BodyCannotParsed
  {
    match f
    case RequestFailed => ReqwestMiddleware
    case BodyNotJson => BodyCannotParsed
  }

  /**
   * The request body `next` formats leaves a trailing comma after
   * `"clientName": "WEB",` when the client version is missing or empty, so
   * `serde_json::from_str(..).unwrap()` panics.
   */
  predicate NoClientVersion(c: Continuation) {
    c.clientVersion.UnwrapOr("") == ""
  }

  /**
   * What `next` returns and the playlist it leaves; None is the panic on the
   * request body. Without a token nothing is asked and nothing changes; a
   * failed request or a null `continuationItems` changes nothing either;
   * otherwise the page's videos (at most `limit`) are appended and
   * returned, and the token is replaced by the page's own while `api` and
   * `clientVersion` are kept.
   */
  function NextOf(s: PlaylistState, limit: Option<nat>, browse: Browse): (r: Option<(Result<seq<PlaylistVideo>, VideoError>, PlaylistState)>)
    ensures r.None? <==> HasToken(s.continuation) && NoClientVersion(s.continuation.value)
    ensures !HasToken(s.continuation) ==> r == Some((Ok([]), s))
    ensures r.Some? && r.value.0.Err? ==>
      r.value.1 == s && (r.value.0.error == ReqwestMiddleware || r.value.0.error == BodyCannotParsed)
    ensures r.Some? && r.value.0.Ok? ==>
      r.value.1.videos == s.videos + r.value.0.value && |r.value.0.value| <= LimitOf(limit)
    ensures r.Some? ==> (r.value.1.continuation.Some? <==> s.continuation.Some?)
    ensures r.Some? && r.value.1.continuation.Some? ==>
      r.value.1.continuation.value.api == s.continuation.value.api
      && r.value.1.continuation.value.clientVersion == s.continuation.value.clientVersion
  {
    if !HasToken(s.continuation) then Some((Ok([]), s))
    else
      var c := s.continuation.value;
      if NoClientVersion(c) then None
      else
        match browse(c)
        case Err(f) => Some((Err(BrowseError(f)), s))
        case Ok(contents) =>
          if contents.NullContents? then Some((Ok([]), s))
          else
            var fetched := PlaylistVideos(contents, limit);
            Some((Ok(fetched), PlaylistState(s.videos + fetched, Some(Continuation(c.api, ContinuationToken(contents), c.clientVersion)))))
  }

  /**
   * The playlist `fetch` leaves, None when `next` panics: pages are
   * requested while there is a token and fewer than `limit` videos, until
   * a request fails or a page brings no video. Fetching only appends: the
   * videos held before are a prefix of those after.
   */
  function FetchOf(s: PlaylistState, limit: nat, browse: Browse): (r: Option<PlaylistState>)
    ensures r.Some? ==> |s.videos| <= |r.value.videos| && r.value.videos[..|s.videos|] == s.videos
    decreases limit - |s.videos|
  {
    if !HasToken(s.continuation) || |s.videos| >= limit then Some(s)
    else
      match NextOf(s, Some(limit), browse)
      case None => None
      case Some((res, s')) =>
        if res.Err? || res.value == [] then Some(s') else FetchOf(s', limit, browse)
  }

  /**
   * `fetch` panics exactly when its first `next` does: the client version
   * is carried over unchanged from page to page, so a later call cannot
   * panic when the first did not.
   */
  lemma {:induction false} FetchPanicsOnlyAtStart(s: PlaylistState, limit: nat, browse: Browse)
    ensures FetchOf(s, limit, browse).None? <==>
      HasToken(s.continuation) && |s.videos| < limit && NoClientVersion(s.continuation.value)
    decreases limit - |s.videos|
  {
    if HasToken(s.continuation) && |s.videos| < limit && !NoClientVersion(s.continuation.value) {
      var (res, s') := NextOf(s, Some(limit), browse).value;
      if res.Ok? && res.value != [] {
        FetchPanicsOnlyAtStart(s', limit, browse);
        assert HasToken(s'.continuation) ==> !NoClientVersion(s'.continuation.value);
      }
    }
  }

  /**
   * Every page is itself cut at `limit`, so a playlist holding fewer than
   * `limit` videos ends with fewer than twice `limit`; one already at the
   * limit is left as it is.
   */
  lemma {:induction false} FetchOvershoot(s: PlaylistState, limit: nat, browse: Browse)
    ensures |s.videos| < limit && FetchOf(s, limit, browse).Some? ==> |FetchOf(s, limit, browse).value.videos| < 2 * limit
    ensures |s.videos| >= limit ==> FetchOf(s, limit, browse) == Some(s)
    decreases limit - |s.videos|
  {
    if HasToken(s.continuation) && |s.videos| < limit && NextOf(s, Some(limit), browse).Some? {
      var (res, s') := NextOf(s, Some(limit), browse).value;
      if res.Ok? && res.value != [] {
        FetchOvershoot(s', limit, browse);
      }
    }
  }

  /** When every request fails, `fetch` leaves the playlist as it was, unless it panics first. */
  lemma {:induction false} FetchStopsOnFailure(s: PlaylistState, limit: nat, browse: Browse)
    requires forall c :: browse(c).Err?
    ensures FetchOf(s, limit, browse).Some? ==> FetchOf(s, limit, browse) == Some(s)
  {
  }

  /** A playlist being paged: the fields `next` and `fetch` update. */
  class Playlist {
    var videos: seq<PlaylistVideo>
    var continuation: Option<Continuation>

    function State(): PlaylistState
      reads this
    {
      PlaylistState(videos, continuation)
    }

    constructor (videos: seq<PlaylistVideo>, continuation: Option<Continuation>)
      ensures State() == PlaylistState(videos, continuation)
    {
      this.videos := videos;
      this.continuation := continuation;
    }

    /** `next`: fetch one page and append its videos; None is the panic on the request body, which leaves the playlist as it was. */
    method Next(limit: Option<nat>, browse: Browse) returns (r: Option<Result<seq<PlaylistVideo>, VideoError>>)
      modifies this
      ensures match NextOf(old(State()), limit, browse)
        case None => r.None? && State() == old(State())
        case Some((res, st)) => r == Some(res) && State() == st
    {
      var lim := LimitOf(limit);
      if continuation.None? || continuation.value.token.None? {
        return Some(Ok([]));
      }
      var c := continuation.value;
      if c.clientVersion.None? || c.clientVersion.value == "" {
        return None;
      }
      var res := browse(c);
      if res.Err? {
        return Some(Err(BrowseError(res.error)));
      }
      var contents := res.value;
      if contents.NullContents? {
        return Some(Ok([]));
      }
      var fetched := GetPlaylistVideos(contents, Some(lim));
      continuation := Some(Continuation(c.api, ContinuationToken(contents), c.clientVersion));
      videos := videos + fetched;
      return Some(Ok(fetched));
    }

    /**
     * `fetch`: call `next` until the token runs out, the limit is reached,
     * or a page fails or is empty; `completed` is false when `next` panicked.
     */
    method Fetch(limit: Option<nat>, browse: Browse) returns (completed: bool)
      modifies this
      ensures completed <==> FetchOf(old(State()), LimitOf(limit), browse).Some?
      ensures completed ==> State() == FetchOf(old(State()), LimitOf(limit), browse).value
      ensures !completed ==> State() == old(State())
    {
      var lim := LimitOf(limit);
      if !HasToken(continuation) {
        return true;
      }
      ghost var start := State();
      ghost var target := FetchOf(State(), lim, browse);
      while HasToken(continuation)
        invariant FetchOf(State(), lim, browse) == target
        invariant target.None? ==> State() == start
        decreases lim - |videos|
      {
        if |videos| >= lim {
          break;
        }
        ghost var before := State();
        FetchPanicsOnlyAtStart(before, lim, browse);
        var chunk := Next(Some(lim), browse);
        if chunk.None? {
          return false;
        }
        if chunk.value.Err? {
          break;
        }
        if chunk.value.value == [] {
          break;
        }
        assert FetchOf(before, lim, browse) == FetchOf(State(), lim, browse);
      }
      return true;
    }
  }
}
