/**
 * Turning the `continuationItems` / search `contents` arrays of YouTube's
 * JSON into result lists (src/search/youtube.rs): `get_playlist_videos`,
 * the limit of `format_search_result`, and `get_continuation_token`.
 *
 * The JSON is reduced to the fields these functions branch on: an array
 * entry either carries a `playlistVideoRenderer` (with or without a
 * `shortBylineText`) or not, and either has a `continuationItemRenderer`
 * key or not.
 */
module SearchResults {
  import opened Wrappers
  import opened Text

  /**
   * A `playlistVideoRenderer` object: its `videoId` when that is a JSON
   * string, and whether its `shortBylineText` is non-null.
   */
  datatype PlaylistVideoRenderer = PlaylistVideoRenderer(videoId: Option<string>, hasShortByline: bool)

  /** A `continuationItemRenderer` object: the continuation command's `token` when it is a string. */
  datatype ContinuationRenderer = ContinuationRenderer(token: Option<string>)

  /**
   * One element of the array: its non-null `playlistVideoRenderer`, and its
   * `continuationItemRenderer` when the element is an object holding that key.
   */
  datatype Entry = Entry(renderer: Option<PlaylistVideoRenderer>, continuationItem: Option<ContinuationRenderer>)

  /** The `continuationItems` value: JSON null, some other non-array value, or an array. */
  datatype Contents = NullContents | NotArray | Items(entries: seq<Entry>)

  /** The identifying part of a playlist `Video`. */
  datatype PlaylistVideo = PlaylistVideo(id: string, url: string)

  /** Every element of `xs` that `convert` accepts, converted, in order. */
  function FilterMap<T, R>(xs: seq<T>, convert: T -> Option<R>): (r: seq<R>)
    ensures |r| <= |xs|
  {
    if xs == [] then []
    else
      var last := convert(xs[|xs| - 1]);
      FilterMap(xs[..|xs| - 1], convert) + (if last.Some? then [last.value] else [])
  }

  lemma {:induction false} FilterMapAppend<T, R>(xs: seq<T>, ys: seq<T>, convert: T -> Option<R>)
    ensures FilterMap(xs + ys, convert) == FilterMap(xs, convert) + FilterMap(ys, convert)
    decreases |ys|
  {
    if ys == [] {
      assert xs + ys == xs;
    } else {
      var init := ys[..|ys| - 1];
      assert (xs + ys)[..|xs + ys| - 1] == xs + init;
      FilterMapAppend(xs, init, convert);
    }
  }

  /** An element is in the result iff some input element converts to it. */
  lemma {:induction false} FilterMapMember<T, R>(xs: seq<T>, convert: T -> Option<R>, v: R)
    ensures v in FilterMap(xs, convert) <==> exists i :: 0 <= i < |xs| && convert(xs[i]) == Some(v)
    decreases |xs|
  {
    if xs != [] {
      var init := xs[..|xs| - 1];
      FilterMapMember(init, convert, v);
      if exists i :: 0 <= i < |xs| && convert(xs[i]) == Some(v) {
        var i :| 0 <= i < |xs| && convert(xs[i]) == Some(v);
        if i < |init| {
          assert convert(init[i]) == Some(v);
        }
      }
    }
  }

  /** The first `n` elements, or all of them when there are fewer. */
  function Take<T>(s: seq<T>, n: nat): (r: seq<T>)
    ensures |r| == if |s| <= n then |s| else n
    ensures r == s[..|r|]
  {
    if |s| <= n then s else s[..n]
  }

  /** `limit.unwrap_or(u64::MAX)` */
  function LimitOf(limit: Option<nat>): nat {
    if limit.Some? then limit.value else U64_MAX
  }

  /**
   * The video an array element contributes to a playlist: none without a
   * renderer or without a byline; otherwise both `id` and `url` are the
   * bare `videoId` ("" when it is not a string).
   */
  function PlaylistVideoOf(e: Entry): (r: Option<PlaylistVideo>)
    ensures r.Some? <==> e.renderer.Some? && e.renderer.value.hasShortByline
    ensures r.Some? ==> r.value.url == r.value.id
    ensures r.Some? ==> r.value.id == e.renderer.value.videoId.UnwrapOr("")
  {
    if e.renderer.None? || !e.renderer.value.hasShortByline then None
    else
      var id := e.renderer.value.videoId.UnwrapOr("");
      Some(PlaylistVideo(id, id))
  }

  /** What `get_playlist_videos` returns: nothing from a non-array, never more than the limit. */
  function PlaylistVideos(contents: Contents, limit: Option<nat>): (r: seq<PlaylistVideo>)
    ensures !contents.Items? ==> r == []
    ensures |r| <= LimitOf(limit)
  {
    if contents.Items? then Take(FilterMap(contents.entries, PlaylistVideoOf), LimitOf(limit)) else []
  }

  /**
   * The playlist videos are the listed entries' videos in array order, cut
   * at the limit: a non-array gives none, at most `limit` are returned, and
   * fewer than `limit` means every listed entry was taken.
   */
  lemma PlaylistVideosSpec(contents: Contents, limit: Option<nat>)
    ensures !contents.Items? ==> PlaylistVideos(contents, limit) == []
    ensures |PlaylistVideos(contents, limit)| <= LimitOf(limit)
    ensures contents.Items? ==>
      var all := FilterMap(contents.entries, PlaylistVideoOf);
      && PlaylistVideos(contents, limit) == all[..|PlaylistVideos(contents, limit)|]
      && (|PlaylistVideos(contents, limit)| < LimitOf(limit) ==> PlaylistVideos(contents, limit) == all)
  {
  }

  /** Every returned video comes from an array element with a renderer and a byline. */
  lemma PlaylistVideoOrigin(contents: Contents, limit: Option<nat>, v: PlaylistVideo)
    requires v in PlaylistVideos(contents, limit)
    ensures contents.Items?
    ensures v.url == v.id
    ensures exists i :: (0 <= i < |contents.entries| && contents.entries[i].renderer.Some?
      && contents.entries[i].renderer.value.hasShortByline
      && PlaylistVideoOf(contents.entries[i]) == Some(v))
  {
    var all := FilterMap(contents.entries, PlaylistVideoOf);
    var r := PlaylistVideos(contents, limit);
    assert r == all[..|r|];
    assert v in all;
    FilterMapMember(contents.entries, PlaylistVideoOf, v);
  }

  /**
   * `get_playlist_videos`: walks the array, stopping as soon as `limit`
   * videos are collected, skipping elements without renderer or byline.
   */
  method GetPlaylistVideos(container: Contents, limit: Option<nat>) returns (videos: seq<PlaylistVideo>)
    ensures videos == PlaylistVideos(container, limit)
  {
    var lim := if limit.Some? then limit.value else U64_MAX;
    videos := [];
    if !container.Items? {
      return [];
    }
    var entries := container.entries;
    var i := 0;
    while i < |entries|
      invariant 0 <= i <= |entries|
      invariant videos == FilterMap(entries[..i], PlaylistVideoOf)
      invariant |videos| <= lim
    {
      if lim == |videos| {
        FilterMapAppend(entries[..i], entries[i..], PlaylistVideoOf);
        assert entries[..i] + entries[i..] == entries;
        return;
      }
      var video := PlaylistVideoOf(entries[i]);
      if video.Some? {
        videos := videos + [video.value];
      }
      assert entries[..i + 1][..i] == entries[..i];
      i := i + 1;
    }
    assert entries[..i] == entries;
  }

  /** `limit = 0` means no cap; any other limit keeps the first `limit` results. */
  function Capped<T>(s: seq<T>, limit: nat): seq<T> {
    if limit == 0 then s else Take(s, limit)
  }

  /** What `format_search_result` returns: `None` stands for a non-array value. */
  function SearchResultsOf<T, R>(value: Option<seq<T>>, limit: nat, convert: T -> Option<R>): seq<R> {
    if value.None? then [] else Capped(FilterMap(value.value, convert), limit)
  }

  /**
   * The search results are the converted items in order; a positive limit
   * caps them and zero leaves them uncapped.
   */
  lemma SearchResultsLimit<T, R>(value: Option<seq<T>>, limit: nat, convert: T -> Option<R>)
    ensures value.None? ==> SearchResultsOf(value, limit, convert) == []
    ensures value.Some? && limit == 0 ==> SearchResultsOf(value, limit, convert) == FilterMap(value.value, convert)
    ensures limit > 0 ==> |SearchResultsOf(value, limit, convert)| <= limit
    ensures value.Some? ==>
      var all := FilterMap(value.value, convert);
      && SearchResultsOf(value, limit, convert) == all[..|SearchResultsOf(value, limit, convert)|]
      && (|SearchResultsOf(value, limit, convert)| < limit ==> SearchResultsOf(value, limit, convert) == all)
  {
  }

  /**
   * The loop of `format_search_result`: the per-item conversion (which
   * skips items it cannot read) is `convert`; the loop stops once a
   * positive limit is reached.
   */
  method FormatSearchResults<T, R>(value: Option<seq<T>>, limit: nat, convert: T -> Option<R>) returns (res: seq<R>)
    ensures res == SearchResultsOf(value, limit, convert)
  {
    res := [];
    if value.Some? {
      var details := value.value;
      var i := 0;
      while i < |details|
        invariant 0 <= i <= |details|
        invariant res == FilterMap(details[..i], convert)
        invariant limit > 0 ==> |res| <= limit
      {
        if limit > 0 && |res| >= limit {
          FilterMapAppend(details[..i], details[i..], convert);
          assert details[..i] + details[i..] == details;
          return;
        }
        var item := convert(details[i]);
        if item.Some? {
          res := res + [item.value];
        }
        assert details[..i + 1][..i] == details[..i];
        i := i + 1;
      }
      assert details[..i] == details;
    }
  }

  /** The token of the first element that has a `continuationItemRenderer`. */
  function FirstToken(entries: seq<Entry>): Option<string> {
    if entries == [] then None
    else if entries[0].continuationItem.Some? then entries[0].continuationItem.value.token
    else FirstToken(entries[1..])
  }

  /** `get_continuation_token`: a token comes only from an array, from one of its `continuationItemRenderer`s. */
  function ContinuationToken(contents: Contents): (r: Option<string>)
    ensures !contents.Items? ==> r.None?
    ensures r.Some? ==>
      exists i :: 0 <= i < |contents.entries| && contents.entries[i].continuationItem == Some(ContinuationRenderer(Some(r.value)))
  {
    if contents.Items? then
      if FirstToken(contents.entries).Some? then FirstTokenSpec(contents.entries, FirstToken(contents.entries).value); FirstToken(contents.entries)
      else None
    else None
  }

  /**
   * A token is found exactly when the first element holding a
   * `continuationItemRenderer` carries a string token, and it is that token.
   */
  lemma {:induction false} FirstTokenSpec(entries: seq<Entry>, t: string)
    ensures FirstToken(entries) == Some(t) <==>
      exists i :: 0 <= i < |entries| && entries[i].continuationItem == Some(ContinuationRenderer(Some(t)))
        && forall j :: 0 <= j < i ==> entries[j].continuationItem.None?
    decreases |entries|
  {
    if entries != [] && entries[0].continuationItem.None? {
      FirstTokenSpec(entries[1..], t);
      if exists i :: (0 <= i < |entries| && entries[i].continuationItem == Some(ContinuationRenderer(Some(t)))
        && forall j :: 0 <= j < i ==> entries[j].continuationItem.None?)
      {
        var i :| 0 <= i < |entries| && entries[i].continuationItem == Some(ContinuationRenderer(Some(t)))
          && forall j :: 0 <= j < i ==> entries[j].continuationItem.None?;
        assert i > 0;
        assert forall j :: 0 <= j < i - 1 ==> entries[1..][j].continuationItem.None? by {
          forall j | 0 <= j < i - 1 ensures entries[1..][j].continuationItem.None? {
            assert entries[1..][j] == entries[j + 1];
          }
        }
      }
      if FirstToken(entries[1..]) == Some(t) {
        var i :| 0 <= i < |entries[1..]| && entries[1..][i].continuationItem == Some(ContinuationRenderer(Some(t)))
          && forall j :: 0 <= j < i ==> entries[1..][j].continuationItem.None?;
        assert entries[i + 1] == entries[1..][i];
        assert forall j :: 0 <= j < i + 1 ==> entries[j].continuationItem.None? by {
          forall j | 0 <= j < i + 1 ensures entries[j].continuationItem.None? {
            if j > 0 {
              assert entries[j] == entries[1..][j - 1];
            }
          }
        }
      }
    } else if entries != [] {
      if exists i :: (0 <= i < |entries| && entries[i].continuationItem == Some(ContinuationRenderer(Some(t)))
        && forall j :: 0 <= j < i ==> entries[j].continuationItem.None?)
      {
        var i :| 0 <= i < |entries| && entries[i].continuationItem == Some(ContinuationRenderer(Some(t)))
          && forall j :: 0 <= j < i ==> entries[j].continuationItem.None?;
        assert i == 0;
      }
    }
  }

  /** No array, or no element with a `continuationItemRenderer`, means no token. */
  lemma NoContinuationItem(contents: Contents)
    requires contents.Items? ==> forall i :: 0 <= i < |contents.entries| ==> contents.entries[i].continuationItem.None?
    ensures ContinuationToken(contents).None?
  {
    if contents.Items? {
      NoContinuationItemIn(contents.entries);
    }
  }

  lemma {:induction false} NoContinuationItemIn(entries: seq<Entry>)
    requires forall i :: 0 <= i < |entries| ==> entries[i].continuationItem.None?
    ensures FirstToken(entries).None?
    decreases |entries|
  {
    if entries != [] {
      assert forall i :: 0 <= i < |entries[1..]| ==> entries[1..][i] == entries[i + 1];
      NoContinuationItemIn(entries[1..]);
    }
  }
}
