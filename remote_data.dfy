/**
 * `RemoteData` (src/stream/remote_data.rs): a URL with an optional HLS
 * byte range, the `Range` header built from that range, and the status
 * decision taken on the response when the resource is fetched.
 */
module Remote {
  import opened Wrappers
  import opened Text
  import opened Errors
  import Structs

  /** `m3u8_rs::ByteRange`: `length` bytes starting at `offset` (0 when absent). */
  datatype ByteRange = ByteRange(length: nat, offset: Option<nat>)

  /** `RemoteData(url, byte_range)`; `RemoteData::new` is this constructor. */
  datatype RemoteData = RemoteData(url: string, byteRange: Option<ByteRange>)

  /** The first byte the range covers: the offset, or 0 when the playlist gives none. */
  function RangeStart(b: ByteRange): (start: nat)
    ensures b.offset.Some? ==> start == b.offset.value
    ensures b.offset.None? ==> start == 0
  {
    b.offset.UnwrapOr(0)
  }

  /** The last byte the range covers: `start + length.saturating_sub(1)`. */
  function RangeEnd(b: ByteRange): (end: nat)
    ensures end >= RangeStart(b)
    ensures b.length >= 1 ==> end - RangeStart(b) + 1 == b.length
    ensures b.length == 0 ==> end == RangeStart(b)
  {
    RangeStart(b) + (if b.length == 0 then 0 else b.length - 1)
  }

  /** `RemoteData::byte_range_string`: `bytes={start}-{end}` for a stored range. */
  function ByteRangeString(d: RemoteData): (r: Option<string>)
    ensures r.None? <==> d.byteRange.None?
    ensures r.Some? ==> StartsWith(r.value, "bytes=")
  {
    match d.byteRange
    case None => None
    case Some(b) => Some("bytes=" + NatToString(RangeStart(b)) + "-" + NatToString(RangeEnd(b)))
  }

  /**
   * Reading the header back: after `bytes=` come two decimal numbers split
   * by `-`, the offset (0 when absent) and the offset plus the length less
   * one, so the header covers exactly `max(length, 1)` bytes.
   */
  lemma ByteRangeStringReadsBack(d: RemoteData)
    requires d.byteRange.Some?
    ensures var h := ByteRangeString(d).value;
      var fields := Split(h[6..], "-");
      |fields| == 2 && AllDigits(fields[0]) && AllDigits(fields[1])
      && DigitsValue(fields[0]) == d.byteRange.value.offset.UnwrapOr(0)
      && DigitsValue(fields[1]) - DigitsValue(fields[0]) + 1 == (if d.byteRange.value.length == 0 then 1 else d.byteRange.value.length)
  {
    var b := d.byteRange.value;
    var s, e := NatToString(RangeStart(b)), NatToString(RangeEnd(b));
    var h := ByteRangeString(d).value;
    assert h[6..] == s + "-" + e;
    assert Join([s, e], "-") == s + "-" + e by {
      JoinCons(s, [e], "-");
      assert [s] + [e] == [s, e];
    }
    assert Avoids(s, '-') && Avoids(e, '-');
    SplitJoin([s, e], "-");
  }

  /** Lengths 0 and 1 request the same single byte. */
  lemma EmptyAndSingleByteRangesAgree(url: string, offset: Option<nat>)
    ensures ByteRangeString(RemoteData(url, Some(ByteRange(0, offset))))
         == ByteRangeString(RemoteData(url, Some(ByteRange(1, offset))))
  {
  }

  /**
   * `make_absolute_url(base, url)`, with URL parsing and joining as
   * `resolve`: `None` stands for a URL the parser rejects.
   */
  function MakeAbsoluteUrl(resolve: (string, string) -> Option<string>, base: string, url: string): (r: Result<string, VideoError>)
    ensures r.Err? <==> resolve(base, url).None?
    ensures r.Err? ==> r.error == URLParseError
    ensures r.Ok? ==> r.value == resolve(base, url).value
  {
    match resolve(base, url)
    case None => Err(URLParseError)
    case Some(u) => Ok(u)
  }

  /** The request `fetch` sends: the URL, with a `Range` header only for a stored range. */
  datatype Request = Request(url: string, range: Option<string>)

  /** What the server answered: a status, the URL after redirects, and the body or the error reading it. */
  datatype Response = Response(status: nat, finalUrl: string, body: Result<seq<byte>, VideoError>)

  function FetchRequest(d: RemoteData): (req: Request)
    ensures req.url == d.url
    ensures req.range.Some? <==> d.byteRange.Some?
    ensures req.range.Some? ==> req.range == ByteRangeString(d)
  {
    Request(d.url, ByteRangeString(d))
  }

  /**
   * `RemoteData::fetch` with the HTTP client as `client`: a transport error
   * is passed on, a status outside 2xx is `BodyCannotParsed`, and otherwise
   * the body comes back with the final URL.
   */
  function Fetch(d: RemoteData, client: Request -> Result<Response, VideoError>): (r: Result<(seq<byte>, string), VideoError>)
    ensures var sent := client(FetchRequest(d));
      && (sent.Err? ==> r == Err(sent.error))
      && (sent.Ok? && !Structs.IsSuccess(sent.value.status) ==> r == Err(BodyCannotParsed))
      && (sent.Ok? && Structs.IsSuccess(sent.value.status) && sent.value.body.Err? ==> r == Err(sent.value.body.error))
      && (r.Ok? <==> sent.Ok? && Structs.IsSuccess(sent.value.status) && sent.value.body.Ok?)
      && (r.Ok? ==> r.value == (sent.value.body.value, sent.value.finalUrl))
  {
    var sent := client(FetchRequest(d));
    if sent.Err? then Err(sent.error)
    else if !Structs.IsSuccess(sent.value.status) then Err(BodyCannotParsed)
    else if sent.value.body.Err? then Err(sent.value.body.error)
    else Ok((sent.value.body.value, sent.value.finalUrl))
  }
}
