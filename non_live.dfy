/**
 * `NonLiveStream` (src/stream/streams/non_live.rs, and the older copy in
 * src/stream/stream.rs): a download cursor that asks for a resource in
 * inclusive byte ranges `start..=end`, `dl_chunk_size` bytes further each
 * time, asks for the open-ended rest once `end` reaches the content length,
 * and then reports the end of the stream.
 *
 * The two versions differ in two places: the current one resets the cursor
 * to its starting position when it reports the end (so the stream can be
 * read again), and it turns a 4xx or 5xx status into an error, where the
 * older one hands such a body back as data.
 */
module NonLive {
  import opened Wrappers
  import opened Text
  import opened Errors
  import opened Http
  import Structs

  /** The cursor: the next range starts at `start` and ends at `end`; `end == 0` means nothing is left. */
  datatype Cursor = Cursor(start: nat, end: nat)

  /** Which copy of the stream: the current one remembers where it started. */
  datatype Version = Current(initial: Cursor) | Legacy

  /** The `Range` header value: `bytes=start-end`, or the open-ended `bytes=start-` when `end` is 0. */
  function RangeHeader(start: nat, end: nat): (h: string)
    ensures StartsWith(h, "bytes=") && |h| > 7
    ensures end == 0 <==> h[|h| - 1] == '-'
  {
    "bytes=" + NatToString(start) + "-" + (if end == 0 then "" else NatToString(end))
  }

  /** The header reads back as the start and, unless open-ended, the end. */
  lemma RangeHeaderReadsBack(start: nat, end: nat)
    ensures var fields := Split(RangeHeader(start, end)[6..], "-");
      |fields| == 2 && AllDigits(fields[0]) && DigitsValue(fields[0]) == start
      && (end == 0 ==> fields[1] == "")
      && (end != 0 ==> AllDigits(fields[1]) && DigitsValue(fields[1]) == end)
  {
    var s := NatToString(start);
    var e := if end == 0 then "" else NatToString(end);
    assert RangeHeader(start, end)[6..] == s + "-" + e;
    assert Join([s, e], "-") == s + "-" + e by {
      JoinCons(s, [e], "-");
      assert [s] + [e] == [s, e];
    }
    assert Avoids(s, '-') && Avoids(e, '-');
    SplitJoin([s, e], "-");
  }

  /** The end actually requested: 0 (open-ended) once `end` has reached the content length. */
  function RequestEnd(c: Cursor, contentLength: nat): (e: nat)
    ensures e == 0 <==> c.end == 0 || c.end >= contentLength
    ensures e != 0 ==> e == c.end
  {
    if c.end >= contentLength then 0 else c.end
  }

  /**
   * The outcome of sending the request: a transport failure is
   * `ReqwestMiddleware`; the current version rejects a 4xx or 5xx status
   * with `Reqwest` (`error_for_status`); then the body is read.
   */
  function Send(v: Version, reply: Option<Reply>): (r: Result<seq<byte>, VideoError>)
    ensures reply.None? ==> r == Err(ReqwestMiddleware)
    ensures reply.Some? && v.Current? && (Structs.IsClientError(reply.value.status) || Structs.IsServerError(reply.value.status))
      ==> r == Err(Reqwest)
    ensures r.Ok? <==> (reply.Some? && !reply.value.failed
      && (v.Legacy? || !(Structs.IsClientError(reply.value.status) || Structs.IsServerError(reply.value.status))))
    ensures r.Ok? ==> r.value == Flatten(reply.value.chunks)
  {
    match reply
    case None => Err(ReqwestMiddleware)
    case Some(rep) =>
      if v.Current? && (Structs.IsClientError(rep.status) || Structs.IsServerError(rep.status)) then Err(Reqwest)
      else Body(rep)
  }

  /**
   * One call of `chunk` on cursor `c`, with the HTTP exchange as `send`
   * (from the `Range` header to the reply, `None` for a transport failure):
   * what it returns and where the cursor ends up.
   */
  function Step(v: Version, contentLength: nat, dlChunkSize: nat, c: Cursor, send: string -> Option<Reply>)
    : (out: (Result<Option<seq<byte>>, VideoError>, Cursor))
    ensures out.0 == Ok(None) <==> c.end == 0
    ensures c.end == 0 ==> out.1 == (if v.Current? then v.initial else c)
    ensures c.end != 0 ==>
      var e := RequestEnd(c, contentLength);
      var got := Send(v, send(RangeHeader(c.start, e)));
      && (got.Err? ==> out == (Err(got.error), Cursor(c.start, e)))
      && (got.Ok? ==> out.0 == Ok(Some(got.value)))
      && (got.Ok? && e != 0 ==> out.1 == Cursor(c.end + 1, c.end + dlChunkSize))
      && (got.Ok? && e == 0 ==> out.1 == Cursor(c.start, 0))
  {
    if c.end == 0 then
      (Ok(None), if v.Current? then v.initial else c)
    else
      var e := RequestEnd(c, contentLength);
      match Send(v, send(RangeHeader(c.start, e)))
      case Err(error) => (Err(error), Cursor(c.start, e))
      case Ok(buf) => (Ok(Some(buf)), if e != 0 then Cursor(e + 1, e + dlChunkSize) else Cursor(c.start, 0))
  }

  // ---------------------------------------------------------------------
  // The ranges of a whole download
  // ---------------------------------------------------------------------

  /** The range a call asks for: from `start` to `end`, or open-ended (`None`). */
  function RangeOf(c: Cursor, contentLength: nat): (nat, Option<nat>) {
    (c.start, if c.end >= contentLength then None else Some(c.end))
  }

  function Remaining(c: Cursor, contentLength: nat): nat {
    if c.end == 0 then 0 else if c.end >= contentLength then 1 else contentLength - c.end + 1
  }

  /** The ranges requested from cursor `c` on when every request succeeds, up to the end of the stream. */
  function Schedule(contentLength: nat, dlChunkSize: nat, c: Cursor): seq<(nat, Option<nat>)>
    requires dlChunkSize > 0
    decreases Remaining(c, contentLength)
  {
    if c.end == 0 then []
    else if c.end >= contentLength then [RangeOf(c, contentLength)]
    else [RangeOf(c, contentLength)] + Schedule(contentLength, dlChunkSize, Cursor(c.end + 1, c.end + dlChunkSize))
  }

  /** A successful call asks for the first range of the schedule and leaves the rest of it to come. */
  lemma StepFollowsSchedule(v: Version, contentLength: nat, dlChunkSize: nat, c: Cursor, send: string -> Option<Reply>)
    requires dlChunkSize > 0 && c.end != 0
    requires Step(v, contentLength, dlChunkSize, c, send).0.Ok?
    ensures var r := RangeOf(c, contentLength);
      RangeHeader(r.0, r.1.UnwrapOr(0)) == RangeHeader(c.start, RequestEnd(c, contentLength))
      && Schedule(contentLength, dlChunkSize, c) == [r] + Schedule(contentLength, dlChunkSize, Step(v, contentLength, dlChunkSize, c, send).1)
  {
  }

  /**
   * The ranges of a download tile the resource from the first `start` on:
   * each closed range is non-empty and ends before the content length, the
   * next one starts right after it, and only the last one is open-ended.
   */
  lemma {:induction false} ScheduleIsContiguous(contentLength: nat, dlChunkSize: nat, c: Cursor)
    requires dlChunkSize > 0 && c.end != 0 && c.start <= c.end
    ensures var s := Schedule(contentLength, dlChunkSize, c);
      && |s| >= 1 && s[0].0 == c.start && s[|s| - 1].1.None?
      && (forall k :: 0 <= k < |s| - 1 ==> s[k].1.Some? && s[k].0 <= s[k].1.value < contentLength)
      && (forall k :: 0 <= k < |s| - 1 ==> s[k + 1].0 == s[k].1.value + 1)
    decreases Remaining(c, contentLength)
  {
    if c.end < contentLength {
      var next := Cursor(c.end + 1, c.end + dlChunkSize);
      ScheduleIsContiguous(contentLength, dlChunkSize, next);
      var s := Schedule(contentLength, dlChunkSize, c);
      var t := Schedule(contentLength, dlChunkSize, next);
      assert s == [RangeOf(c, contentLength)] + t;
      assert forall k :: 1 <= k < |s| ==> s[k] == t[k - 1];
    }
  }

  /** A 4xx or 5xx reply is an error for the current version and data for the older one. */
  lemma StatusCheckDiffers(initial: Cursor, contentLength: nat, dlChunkSize: nat, c: Cursor, send: string -> Option<Reply>)
    requires c.end != 0
    requires var reply := send(RangeHeader(c.start, RequestEnd(c, contentLength)));
      reply.Some? && !reply.value.failed && 400 <= reply.value.status < 600
    ensures Step(Current(initial), contentLength, dlChunkSize, c, send).0 == Err(Reqwest)
    ensures Step(Legacy, contentLength, dlChunkSize, c, send).0
         == Ok(Some(Flatten(send(RangeHeader(c.start, RequestEnd(c, contentLength))).value.chunks)))
  {
  }

  // ---------------------------------------------------------------------
  // The streams
  // ---------------------------------------------------------------------

  /** `NonLiveStream` of src/stream/streams/non_live.rs. */
  class NonLiveStream {
    const link: string
    const contentLength: nat
    const dlChunkSize: nat
    const startStatic: nat
    const endStatic: nat
    var start: nat
    var end: nat

    /** `NonLiveStream::new`: the cursor and its remembered starting position both begin at `start..=end`. */
    constructor(link: string, contentLength: nat, dlChunkSize: nat, start: nat, end: nat)
      ensures this.link == link && this.contentLength == contentLength && this.dlChunkSize == dlChunkSize
      ensures this.start == start && this.end == end && startStatic == start && endStatic == end
    {
      this.link := link;
      this.contentLength := contentLength;
      this.dlChunkSize := dlChunkSize;
      this.start := start;
      this.end := end;
      this.startStatic := start;
      this.endStatic := end;
    }

    /** `NonLiveStream::content_length`: the length given at construction, which nothing changes. */
    function ContentLength(): (n: nat)
      ensures n == contentLength
    {
      contentLength
    }

    function Position(): Cursor
      reads this
    {
      Cursor(start, end)
    }

    /** `NonLiveStream::chunk` (without the ffmpeg path). */
    method Chunk(send: string -> Option<Reply>) returns (r: Result<Option<seq<byte>>, VideoError>)
      modifies this
      ensures (r, Position()) == Step(Current(Cursor(startStatic, endStatic)), contentLength, dlChunkSize, old(Position()), send)
    {
      var e := end;
      if e == 0 {
        end := endStatic;
        start := startStatic;
        return Ok(None);
      }
      if e >= contentLength {
        end := 0;
      }
      e := end;
      var reply := send(RangeHeader(start, e));
      if reply.None? {
        return Err(ReqwestMiddleware);
      }
      if Structs.IsClientError(reply.value.status) || Structs.IsServerError(reply.value.status) {
        return Err(Reqwest);
      }
      var buf := ReadBody(reply.value);
      if buf.Err? {
        return Err(buf.error);
      }
      if e != 0 {
        start := e + 1;
        end := end + dlChunkSize;
      }
      return Ok(Some(buf.value));
    }
  }

  /** `NonLiveStream` of src/stream/stream.rs: no remembered start, no status check. */
  class LegacyNonLiveStream {
    const link: string
    const contentLength: nat
    const dlChunkSize: nat
    var start: nat
    var end: nat

    constructor(link: string, contentLength: nat, dlChunkSize: nat, start: nat, end: nat)
      ensures this.link == link && this.contentLength == contentLength && this.dlChunkSize == dlChunkSize
      ensures this.start == start && this.end == end
    {
      this.link := link;
      this.contentLength := contentLength;
      this.dlChunkSize := dlChunkSize;
      this.start := start;
      this.end := end;
    }

    function Position(): Cursor
      reads this
    {
      Cursor(start, end)
    }

    /** `NonLiveStream::chunk` of the older copy: once `end` is 0 it stays there. */
    method Chunk(send: string -> Option<Reply>) returns (r: Result<Option<seq<byte>>, VideoError>)
      modifies this
      ensures (r, Position()) == Step(Legacy, contentLength, dlChunkSize, old(Position()), send)
    {
      var e := end;
      if e == 0 {
        return Ok(None);
      }
      if e >= contentLength {
        end := 0;
      }
      e := end;
      var reply := send(RangeHeader(start, e));
      if reply.None? {
        return Err(ReqwestMiddleware);
      }
      var buf := ReadBody(reply.value);
      if buf.Err? {
        return Err(buf.error);
      }
      if e != 0 {
        start := e + 1;
        end := end + dlChunkSize;
      }
      return Ok(Some(buf.value));
    }
  }
}
