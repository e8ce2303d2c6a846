/**
 * `LiveStream` (src/stream/streams/live.rs; src/stream/stream.rs holds an
 * older copy with the same behaviour): a queue of HLS media segments, filled
 * by re-reading the media playlist and emptied one segment per `chunk` call.
 *
 * Every segment is numbered by the pair `(discon_seq, seq)`: its media
 * sequence number and the discontinuity sequence it belongs to. The stream
 * remembers the largest pair it has taken in, `last_seg`, and takes in a
 * playlist segment only when its pair is larger, so the queue stays
 * strictly increasing and nothing is queued twice.
 */
module Live {
  import opened Wrappers
  import opened Text
  import opened Errors
  import opened Remote
  import opened MediaFormats
  import opened Segments
  import opened HlsEncryption
  import opened Http

  // ---------------------------------------------------------------------
  // The media playlist (`m3u8_rs::MediaPlaylist`, the fields used)
  // ---------------------------------------------------------------------

  /** `EXT-X-MAP`: the initialisation section of the following segments. */
  datatype MapTag = MapTag(uri: string, byteRange: Option<ByteRange>)

  datatype MediaSegment = MediaSegment(
    uri: string,
    byteRange: Option<ByteRange>,
    discontinuity: bool,
    key: Option<Key>,
    mapTag: Option<MapTag>)

  datatype MediaPlaylist = MediaPlaylist(
    mediaSequence: nat,
    discontinuitySequence: nat,
    segments: seq<MediaSegment>,
    endList: bool)

  /** A queued segment and the encryption in force when it was queued. */
  type Entry = (Segment, Encryption)

  /** `(discon_seq, seq)` */
  type SeqKey = (nat, nat)

  /** How many of `segs` carry `EXT-X-DISCONTINUITY`. */
  function DisconCount(segs: seq<MediaSegment>): nat {
    if segs == [] then 0
    else DisconCount(segs[..|segs| - 1]) + (if segs[|segs| - 1].discontinuity then 1 else 0)
  }

  /**
   * The pair the `i`-th playlist segment is numbered with: its media
   * sequence number is `media_sequence + i`, its discontinuity sequence is
   * `discontinuity_sequence` plus the discontinuities among the first `i + 1`.
   */
  function Numbered(pl: MediaPlaylist, i: nat): SeqKey
    requires i < |pl.segments|
  {
    (pl.discontinuitySequence + DisconCount(pl.segments[..i + 1]), pl.mediaSequence + i)
  }

  /** Later playlist segments get strictly larger pairs. */
  lemma {:induction false} NumberedIncreasing(pl: MediaPlaylist, i: nat, j: nat)
    requires i < j < |pl.segments|
    ensures KeyBelow(Numbered(pl, i), Numbered(pl, j))
    decreases j - i
  {
    DisconCountGrows(pl.segments, i + 1, j + 1);
  }

  lemma {:induction false} DisconCountGrows(segs: seq<MediaSegment>, m: nat, n: nat)
    requires m <= n <= |segs|
    ensures DisconCount(segs[..m]) <= DisconCount(segs[..n])
    decreases n - m
  {
    if m < n {
      DisconCountGrows(segs, m, n - 1);
      assert segs[..n][..n - 1] == segs[..n - 1];
    }
  }

  /** `key` is at most `last`, with `None` below everything. */
  predicate AtMost(key: SeqKey, last: Option<SeqKey>) {
    last.Some? && !KeyBelow(last.value, key)
  }

  /** Some queued entry already has pair `key`. */
  predicate HasKey(queue: seq<Entry>, key: SeqKey) {
    exists j :: 0 <= j < |queue| && Segments.Key(queue[j].0) == key
  }

  // ---------------------------------------------------------------------
  // refresh_playlist
  // ---------------------------------------------------------------------

  /** The variables of the loop over the playlist segments. */
  datatype Acc = Acc(
    queue: seq<Entry>,
    lastSeg: Option<SeqKey>,
    disconOffset: nat,
    encryption: Encryption,
    curInit: Option<RemoteData>)

  /** The loop state at the start of a refresh: encryption and initialisation start afresh. */
  function StartAcc(queue: seq<Entry>, lastSeg: Option<SeqKey>): Acc {
    Acc(queue, lastSeg, 0, Unencrypted, None)
  }

  datatype StepResult = Continue(acc: Acc) | Stop(acc: Acc, error: VideoError)

  /**
   * The encryption in force for a segment: its own key tag when it has one
   * (`Encryption::new`), otherwise the one in force before.
   */
  function SegmentEncryption(s: MediaSegment, base: string, mediaSeq: nat, resolve: (string, string) -> Option<string>,
                             current: Encryption): (r: Result<Encryption, VideoError>)
    ensures s.key.None? ==> r == Ok(current)
    ensures s.key.Some? && r.Ok? ==> !r.value.SampleAes?
  {
    if s.key.Some? then New(s.key.value, base, mediaSeq, resolve) else Ok(current)
  }

  /** `init` is the initialisation section `tag` names: its URI resolved against `base`, with its byte range. */
  predicate IsMapInit(init: Option<RemoteData>, tag: MapTag, base: string, resolve: (string, string) -> Option<string>) {
    init.Some? && MakeAbsoluteUrl(resolve, base, tag.uri) == Ok(init.value.url) && init.value.byteRange == tag.byteRange
  }

  /**
   * Taking in a segment numbered `key` once its encryption is settled:
   * resolve its URL and its `EXT-X-MAP` URL, carry the initialisation
   * section forward, and queue it unless its pair is queued already.
   * A failing URL stops with the loop state untouched; otherwise the
   * segment's own map tag, when it has one, becomes the initialisation in
   * force, and the queued entry is the segment at its resolved URL and
   * byte range with that initialisation and the current encryption.
   */
  function TakeIn(s: MediaSegment, base: string, resolve: (string, string) -> Option<string>, key: SeqKey, a: Acc): (r: StepResult)
    ensures r.Stop? <==> MakeAbsoluteUrl(resolve, base, s.uri).Err? || (s.mapTag.Some? && MakeAbsoluteUrl(resolve, base, s.mapTag.value.uri).Err?)
    ensures r.Stop? ==> r.acc == a
    ensures r.Continue? && s.mapTag.None? ==> r.acc.curInit == a.curInit
    ensures r.Continue? && s.mapTag.Some? ==> IsMapInit(r.acc.curInit, s.mapTag.value, base, resolve)
    ensures r.acc.lastSeg == a.lastSeg && r.acc.encryption == a.encryption && r.acc.disconOffset == a.disconOffset
    ensures (r.acc.queue == a.queue && (r.Stop? || HasKey(a.queue, key)))
         || (r.Continue? && !HasKey(a.queue, key) && |r.acc.queue| == |a.queue| + 1 && r.acc.queue[..|a.queue|] == a.queue
             && Segments.Key(r.acc.queue[|a.queue|].0) == key && r.acc.queue[|a.queue|].1 == a.encryption
             && MakeAbsoluteUrl(resolve, base, s.uri) == Ok(r.acc.queue[|a.queue|].0.data.url)
             && r.acc.queue[|a.queue|].0.data.byteRange == s.byteRange
             && r.acc.queue[|a.queue|].0.initialization == r.acc.curInit)
  {
    var url := MakeAbsoluteUrl(resolve, base, s.uri);
    if url.Err? then Stop(a, url.error)
    else
      var mapUrl := if s.mapTag.Some? then MakeAbsoluteUrl(resolve, base, s.mapTag.value.uri) else Ok("");
      if mapUrl.Err? then Stop(a, mapUrl.error)
      else
        var init := if s.mapTag.Some? then Some(RemoteData(mapUrl.value, s.mapTag.value.byteRange)) else a.curInit;
        var segment := Segment(RemoteData(url.value, s.byteRange), key.0, key.1, Unknown, init);
        if HasKey(a.queue, key) then Continue(a.(curInit := init))
        else Continue(a.(curInit := init, queue := a.queue + [(segment, a.encryption)]))
  }

  /**
   * One round of the loop in `refresh_playlist`, for the `i`-th segment.
   * The discontinuity count moves on even for a skipped segment; a failing
   * key tag stops before `last_seg` moves, a failing URL after it. A round
   * appends at most one entry and never lowers `last_seg`.
   */
  function SegmentStep(pl: MediaPlaylist, base: string, resolve: (string, string) -> Option<string>, i: nat, a: Acc): (r: StepResult)
    requires i < |pl.segments|
    ensures |a.queue| <= |r.acc.queue| <= |a.queue| + 1 && r.acc.queue[..|a.queue|] == a.queue
    ensures r.acc.lastSeg == a.lastSeg || (r.acc.lastSeg.Some? && (a.lastSeg.None? || KeyBelow(a.lastSeg.value, r.acc.lastSeg.value)))
  {
    var s := pl.segments[i];
    var offset := a.disconOffset + (if s.discontinuity then 1 else 0);
    var key := (pl.discontinuitySequence + offset, pl.mediaSequence + i);
    var a0 := a.(disconOffset := offset);
    if a.lastSeg.Some? && !KeyBelow(a.lastSeg.value, key) then Continue(a0)
    else
      var enc := SegmentEncryption(s, base, key.1, resolve, a.encryption);
      if enc.Err? then Stop(a0, enc.error)
      else TakeIn(s, base, resolve, key, a0.(encryption := enc.value, lastSeg := Some(key)))
  }

  /**
   * The loop from segment `i` on: the final state, and the error that ended
   * it early, if any. The loop only appends to the queue.
   */
  function RefreshFrom(pl: MediaPlaylist, base: string, resolve: (string, string) -> Option<string>, i: nat, a: Acc): (r: (Acc, Option<VideoError>))
    requires i <= |pl.segments|
    ensures |a.queue| <= |r.0.queue| && r.0.queue[..|a.queue|] == a.queue
    decreases |pl.segments| - i
  {
    if i == |pl.segments| then (a, None)
    else
      match SegmentStep(pl, base, resolve, i, a)
      case Stop(b, e) => (b, Some(e))
      case Continue(b) => RefreshFrom(pl, base, resolve, i + 1, b)
  }

  /** What the stream keeps between calls. */
  datatype LiveState = LiveState(queue: seq<Entry>, lastSeg: Option<SeqKey>, isEnd: bool, lastRefresh: nat)

  /**
   * `refresh_playlist`, given the playlist it downloads and parses (or the
   * error doing so), the clock reading `now`, and URL resolution. Queue and
   * `last_seg` keep what the loop did even when it stops early; the refresh
   * time and the end flag move only when it completes.
   */
  function Refresh(st: LiveState, playlist: Result<MediaPlaylist, VideoError>, base: string, now: nat,
                   resolve: (string, string) -> Option<string>): (out: (Result<(), VideoError>, LiveState))
    ensures playlist.Err? ==> out == (Err(playlist.error), st)
    ensures out.0.Err? ==> out.1.isEnd == st.isEnd && out.1.lastRefresh == st.lastRefresh
    ensures out.0.Ok? ==> out.1.lastRefresh == now && out.1.isEnd == (st.isEnd || playlist.value.endList)
  {
    match playlist
    case Err(e) => (Err(e), st)
    case Ok(pl) =>
      var (a, err) := RefreshFrom(pl, base, resolve, 0, StartAcc(st.queue, st.lastSeg));
      var st1 := st.(queue := a.queue, lastSeg := a.lastSeg);
      if err.Some? then (Err(err.value), st1)
      else (Ok(()), st1.(lastRefresh := now, isEnd := st.isEnd || pl.endList))
  }

  // ---------------------------------------------------------------------
  // The queue invariant
  // ---------------------------------------------------------------------

  /**
   * The queue is strictly increasing in `(discon_seq, seq)`, every entry is
   * at most `last_seg` (so there is none before anything was taken in), and
   * no entry needs the unimplemented SAMPLE-AES decryption.
   */
  predicate QueueOk(queue: seq<Entry>, lastSeg: Option<SeqKey>) {
    && (forall j, k :: 0 <= j < k < |queue| ==> KeyBelow(Segments.Key(queue[j].0), Segments.Key(queue[k].0)))
    && (forall j :: 0 <= j < |queue| ==> AtMost(Segments.Key(queue[j].0), lastSeg))
    && (forall j :: 0 <= j < |queue| ==> !queue[j].1.SampleAes?)
  }

  /** Under the invariant the duplicate check in the loop never finds anything. */
  lemma DuplicateCheckNeverFires(queue: seq<Entry>, lastSeg: Option<SeqKey>, key: SeqKey)
    requires QueueOk(queue, lastSeg)
    requires lastSeg.None? || KeyBelow(lastSeg.value, key)
    ensures !HasKey(queue, key)
  {
  }

  /** Raising `last_seg` keeps the invariant. */
  lemma RaiseKeepsQueueOk(queue: seq<Entry>, lastSeg: Option<SeqKey>, key: SeqKey)
    requires QueueOk(queue, lastSeg)
    requires lastSeg.None? || KeyBelow(lastSeg.value, key)
    ensures QueueOk(queue, Some(key))
  {
  }

  /** Appending an entry above `last_seg` and raising `last_seg` to it keeps the invariant. */
  lemma AppendKeepsQueueOk(queue: seq<Entry>, lastSeg: Option<SeqKey>, e: Entry)
    requires QueueOk(queue, lastSeg) && !e.1.SampleAes?
    requires lastSeg.None? || KeyBelow(lastSeg.value, Segments.Key(e.0))
    ensures QueueOk(queue + [e], Some(Segments.Key(e.0)))
  {
    RaiseKeepsQueueOk(queue, lastSeg, Segments.Key(e.0));
  }

  /** The loop state keeps the queue invariant and never holds SAMPLE-AES. */
  predicate AccOk(a: Acc) {
    QueueOk(a.queue, a.lastSeg) && !a.encryption.SampleAes?
  }

  lemma SegmentStepKeepsAccOk(pl: MediaPlaylist, base: string, resolve: (string, string) -> Option<string>, i: nat, a: Acc)
    requires i < |pl.segments| && AccOk(a)
    ensures AccOk(SegmentStep(pl, base, resolve, i, a).acc)
  {
    var s := pl.segments[i];
    var offset := a.disconOffset + (if s.discontinuity then 1 else 0);
    var key := (pl.discontinuitySequence + offset, pl.mediaSequence + i);
    if a.lastSeg.None? || KeyBelow(a.lastSeg.value, key) {
      var enc := SegmentEncryption(s, base, key.1, resolve, a.encryption);
      if enc.Ok? {
        RaiseKeepsQueueOk(a.queue, a.lastSeg, key);
        DuplicateCheckNeverFires(a.queue, a.lastSeg, key);
        var b := SegmentStep(pl, base, resolve, i, a).acc;
        if b.queue != a.queue {
          AppendKeepsQueueOk(a.queue, a.lastSeg, b.queue[|a.queue|]);
          assert b.queue == a.queue + [b.queue[|a.queue|]];
        }
      }
    }
  }

  lemma {:induction false} RefreshFromKeepsAccOk(pl: MediaPlaylist, base: string, resolve: (string, string) -> Option<string>, i: nat, a: Acc)
    requires i <= |pl.segments| && AccOk(a)
    ensures AccOk(RefreshFrom(pl, base, resolve, i, a).0)
    decreases |pl.segments| - i
  {
    if i < |pl.segments| {
      SegmentStepKeepsAccOk(pl, base, resolve, i, a);
      var step := SegmentStep(pl, base, resolve, i, a);
      if step.Continue? {
        RefreshFromKeepsAccOk(pl, base, resolve, i + 1, step.acc);
      }
    }
  }

  /** A refresh keeps the queue invariant, whether it completes or stops early. */
  lemma RefreshKeepsQueueOk(st: LiveState, playlist: Result<MediaPlaylist, VideoError>, base: string, now: nat,
                            resolve: (string, string) -> Option<string>)
    requires QueueOk(st.queue, st.lastSeg)
    ensures var st1 := Refresh(st, playlist, base, now, resolve).1; QueueOk(st1.queue, st1.lastSeg)
  {
    if playlist.Ok? {
      RefreshFromKeepsAccOk(playlist.value, base, resolve, 0, StartAcc(st.queue, st.lastSeg));
    }
  }

  // ---------------------------------------------------------------------
  // Refreshing twice
  // ---------------------------------------------------------------------

  /** The step for segment `i` uses the pair `Numbered(pl, i)` when the offset has counted the earlier discontinuities. */
  lemma StepNumbering(pl: MediaPlaylist, i: nat, offset: nat)
    requires i < |pl.segments| && offset == DisconCount(pl.segments[..i])
    ensures offset + (if pl.segments[i].discontinuity then 1 else 0) == DisconCount(pl.segments[..i + 1])
  {
    assert pl.segments[..i + 1][..i] == pl.segments[..i];
  }

  /** After the loop from `i` runs to completion, `last_seg` has reached every later segment's pair. */
  lemma {:induction false} CompletedRefreshCovers(pl: MediaPlaylist, base: string, resolve: (string, string) -> Option<string>, i: nat, a: Acc)
    requires i <= |pl.segments| && a.disconOffset == DisconCount(pl.segments[..i])
    requires RefreshFrom(pl, base, resolve, i, a).1.None?
    ensures forall j :: i <= j < |pl.segments| ==> AtMost(Numbered(pl, j), RefreshFrom(pl, base, resolve, i, a).0.lastSeg)
    ensures a.lastSeg.Some? ==> AtMost(a.lastSeg.value, RefreshFrom(pl, base, resolve, i, a).0.lastSeg)
    decreases |pl.segments| - i
  {
    if i < |pl.segments| {
      StepNumbering(pl, i, a.disconOffset);
      var b := SegmentStep(pl, base, resolve, i, a).acc;
      assert AtMost(Numbered(pl, i), b.lastSeg);
      assert a.lastSeg.Some? ==> AtMost(a.lastSeg.value, b.lastSeg);
      CompletedRefreshCovers(pl, base, resolve, i + 1, b);
    }
  }

  /** A pair found in a prefix of the queue is found in the queue. */
  lemma HasKeyPrefix(q: seq<Entry>, p: seq<Entry>, key: SeqKey)
    requires |p| <= |q| && q[..|p|] == p && HasKey(p, key)
    ensures HasKey(q, key)
  {
    var j :| 0 <= j < |p| && Segments.Key(p[j].0) == key;
    assert q[j] == q[..|p|][j];
  }

  /**
   * One completed round for a segment above `last_seg` queues it: its key
   * tag resolved, its URLs resolved, and the duplicate check cannot fire.
   */
  lemma StepQueuesNew(pl: MediaPlaylist, base: string, resolve: (string, string) -> Option<string>, i: nat, a: Acc)
    requires i < |pl.segments| && a.disconOffset == DisconCount(pl.segments[..i]) && AccOk(a)
    requires !AtMost(Numbered(pl, i), a.lastSeg)
    requires SegmentStep(pl, base, resolve, i, a).Continue?
    ensures var b := SegmentStep(pl, base, resolve, i, a).acc;
      HasKey(b.queue, Numbered(pl, i)) && b.lastSeg == Some(Numbered(pl, i))
  {
    StepNumbering(pl, i, a.disconOffset);
    DuplicateCheckNeverFires(a.queue, a.lastSeg, Numbered(pl, i));
    var b := SegmentStep(pl, base, resolve, i, a).acc;
    assert Segments.Key(b.queue[|a.queue|].0) == Numbered(pl, i);
  }

  /**
   * A loop that runs to completion queues every remaining playlist segment
   * whose pair is above the `last_seg` it started from.
   */
  lemma {:induction false} CompletedRefreshQueuesNew(pl: MediaPlaylist, base: string, resolve: (string, string) -> Option<string>, i: nat, a: Acc)
    requires i <= |pl.segments| && a.disconOffset == DisconCount(pl.segments[..i]) && AccOk(a)
    requires RefreshFrom(pl, base, resolve, i, a).1.None?
    ensures forall j :: i <= j < |pl.segments| && !AtMost(Numbered(pl, j), a.lastSeg) ==>
      HasKey(RefreshFrom(pl, base, resolve, i, a).0.queue, Numbered(pl, j))
    decreases |pl.segments| - i
  {
    if i < |pl.segments| {
      StepNumbering(pl, i, a.disconOffset);
      SegmentStepKeepsAccOk(pl, base, resolve, i, a);
      var b := SegmentStep(pl, base, resolve, i, a).acc;
      assert b.disconOffset == DisconCount(pl.segments[..i + 1]);
      CompletedRefreshQueuesNew(pl, base, resolve, i + 1, b);
      var final := RefreshFrom(pl, base, resolve, i + 1, b).0;
      forall j | i <= j < |pl.segments| && !AtMost(Numbered(pl, j), a.lastSeg)
        ensures HasKey(final.queue, Numbered(pl, j))
      {
        if j == i {
          StepQueuesNew(pl, base, resolve, i, a);
          HasKeyPrefix(final.queue, b.queue, Numbered(pl, i));
        } else {
          NumberedIncreasing(pl, i, j);
          if !AtMost(Numbered(pl, i), a.lastSeg) {
            StepQueuesNew(pl, base, resolve, i, a);
          }
          assert !AtMost(Numbered(pl, j), b.lastSeg);
        }
      }
    }
  }

  /**
   * A completed refresh queues every segment of the playlist whose pair is
   * above the old `last_seg`; the queue stays strictly increasing, so they
   * are queued in playlist order.
   */
  lemma RefreshQueuesNewSegments(st: LiveState, pl: MediaPlaylist, base: string, now: nat,
                                 resolve: (string, string) -> Option<string>)
    requires QueueOk(st.queue, st.lastSeg)
    requires Refresh(st, Ok(pl), base, now, resolve).0.Ok?
    ensures var st1 := Refresh(st, Ok(pl), base, now, resolve).1;
      && (forall j :: 0 <= j < |pl.segments| && !AtMost(Numbered(pl, j), st.lastSeg) ==> HasKey(st1.queue, Numbered(pl, j)))
      && QueueOk(st1.queue, st1.lastSeg)
  {
    assert pl.segments[..0] == [];
    CompletedRefreshQueuesNew(pl, base, resolve, 0, StartAcc(st.queue, st.lastSeg));
    RefreshKeepsQueueOk(st, Ok(pl), base, now, resolve);
  }

  /** When `last_seg` already covers every remaining pair, the loop skips every segment. */
  lemma {:induction false} CoveredRefreshSkips(pl: MediaPlaylist, base: string, resolve: (string, string) -> Option<string>, i: nat, a: Acc)
    requires i <= |pl.segments| && a.disconOffset == DisconCount(pl.segments[..i])
    requires forall j :: i <= j < |pl.segments| ==> AtMost(Numbered(pl, j), a.lastSeg)
    ensures RefreshFrom(pl, base, resolve, i, a) == (a.(disconOffset := DisconCount(pl.segments)), None)
    decreases |pl.segments| - i
  {
    if i < |pl.segments| {
      StepNumbering(pl, i, a.disconOffset);
      assert AtMost(Numbered(pl, i), a.lastSeg);
      CoveredRefreshSkips(pl, base, resolve, i + 1, a.(disconOffset := DisconCount(pl.segments[..i + 1])));
    } else {
      assert pl.segments[..i] == pl.segments;
    }
  }

  /** Refreshing again against a playlist that has not changed queues nothing and leaves `last_seg` alone. */
  lemma UnchangedPlaylistAddsNothing(st: LiveState, pl: MediaPlaylist, base: string, now: nat, later: nat,
                                     resolve: (string, string) -> Option<string>)
    requires Refresh(st, Ok(pl), base, now, resolve).0.Ok?
    ensures var st1 := Refresh(st, Ok(pl), base, now, resolve).1;
      var st2 := Refresh(st1, Ok(pl), base, later, resolve).1;
      st2.queue == st1.queue && st2.lastSeg == st1.lastSeg
  {
    var a0 := StartAcc(st.queue, st.lastSeg);
    assert pl.segments[..0] == [];
    CompletedRefreshCovers(pl, base, resolve, 0, a0);
    var st1 := Refresh(st, Ok(pl), base, now, resolve).1;
    CoveredRefreshSkips(pl, base, resolve, 0, StartAcc(st1.queue, st1.lastSeg));
  }

  /**
   * A playlist without `EXT-X-KEY` and `EXT-X-MAP` tags queues only
   * unencrypted segments without an initialisation section.
   */
  lemma {:induction false} PlainPlaylistQueuesPlainSegments(pl: MediaPlaylist, base: string, resolve: (string, string) -> Option<string>, i: nat, a: Acc)
    requires i <= |pl.segments| && a.encryption == Unencrypted && a.curInit.None?
    requires forall j :: i <= j < |pl.segments| ==> pl.segments[j].key.None? && pl.segments[j].mapTag.None?
    ensures forall k :: |a.queue| <= k < |RefreshFrom(pl, base, resolve, i, a).0.queue| ==>
      RefreshFrom(pl, base, resolve, i, a).0.queue[k].1 == Unencrypted && RefreshFrom(pl, base, resolve, i, a).0.queue[k].0.initialization.None?
    decreases |pl.segments| - i
  {
    if i < |pl.segments| {
      var step := SegmentStep(pl, base, resolve, i, a);
      if step.Continue? {
        PlainPlaylistQueuesPlainSegments(pl, base, resolve, i + 1, step.acc);
        var b := RefreshFrom(pl, base, resolve, i + 1, step.acc).0;
        forall k | |a.queue| <= k < |b.queue|
          ensures b.queue[k].1 == Unencrypted && b.queue[k].0.initialization.None?
        {
          if k < |step.acc.queue| {
            assert b.queue[k] == b.queue[..|step.acc.queue|][k];
          }
        }
      }
    }
  }

  /**
   * The map tag of the latest segment before `n` whose pair is above
   * `last`. A refresh skips the segments at or below `last` before it looks
   * at their tags, and starts with no initialisation, so this is the
   * initialisation in force once the first `n` segments are through.
   */
  function LatestMap(pl: MediaPlaylist, last: Option<SeqKey>, n: nat): Option<MapTag>
    requires n <= |pl.segments|
  {
    if n == 0 then None
    else if !AtMost(Numbered(pl, n - 1), last) && pl.segments[n - 1].mapTag.Some? then pl.segments[n - 1].mapTag
    else LatestMap(pl, last, n - 1)
  }

  /** `init` is what `tag` gives, and nothing when there is no tag. */
  predicate InitAgrees(init: Option<RemoteData>, tag: Option<MapTag>, base: string, resolve: (string, string) -> Option<string>) {
    (tag.None? ==> init.None?) && (tag.Some? ==> IsMapInit(init, tag.value, base, resolve))
  }

  /** Distinct playlist positions are numbered with distinct pairs. */
  lemma NumberedInjective(pl: MediaPlaylist, i: nat, j: nat)
    requires i < |pl.segments| && j < |pl.segments| && Numbered(pl, i) == Numbered(pl, j)
    ensures i == j
  {
    if i < j {
      NumberedIncreasing(pl, i, j);
    } else if j < i {
      NumberedIncreasing(pl, j, i);
    }
  }

  /**
   * The loop state a refresh started from the `last_seg` `last` is in
   * before segment `i`: `last_seg` is still `last`, or the pair of the
   * segment just taken in, and the initialisation in force is that of the
   * latest map tag among the new segments so far.
   */
  predicate InitInvariant(pl: MediaPlaylist, base: string, resolve: (string, string) -> Option<string>, i: nat, a: Acc, last: Option<SeqKey>)
    requires i <= |pl.segments|
  {
    && a.disconOffset == DisconCount(pl.segments[..i])
    && (a.lastSeg == last || (0 < i && a.lastSeg == Some(Numbered(pl, i - 1)) && !AtMost(Numbered(pl, i - 1), last)))
    && InitAgrees(a.curInit, LatestMap(pl, last, i), base, resolve)
  }

  /** The queued entry `e` is playlist segment `j` at its resolved URL and byte range, with the initialisation of `LatestMap`. */
  predicate QueuedAs(e: Entry, pl: MediaPlaylist, base: string, resolve: (string, string) -> Option<string>, j: nat, last: Option<SeqKey>)
    requires j < |pl.segments|
  {
    && MakeAbsoluteUrl(resolve, base, pl.segments[j].uri) == Ok(e.0.data.url)
    && e.0.data.byteRange == pl.segments[j].byteRange
    && InitAgrees(e.0.initialization, LatestMap(pl, last, j + 1), base, resolve)
  }

  /** One round that continues keeps `InitInvariant`, and the entry it may append is segment `i` as `QueuedAs` says. */
  lemma StepInits(pl: MediaPlaylist, base: string, resolve: (string, string) -> Option<string>, i: nat, a: Acc, last: Option<SeqKey>)
    requires i < |pl.segments| && InitInvariant(pl, base, resolve, i, a, last)
    requires SegmentStep(pl, base, resolve, i, a).Continue?
    ensures InitInvariant(pl, base, resolve, i + 1, SegmentStep(pl, base, resolve, i, a).acc, last)
    ensures forall k :: |a.queue| <= k < |SegmentStep(pl, base, resolve, i, a).acc.queue| ==>
      Segments.Key(SegmentStep(pl, base, resolve, i, a).acc.queue[k].0) == Numbered(pl, i) &&
      !AtMost(Numbered(pl, i), a.lastSeg) &&
      QueuedAs(SegmentStep(pl, base, resolve, i, a).acc.queue[k], pl, base, resolve, i, last)
  {
    StepNumbering(pl, i, a.disconOffset);
    if 0 < i && a.lastSeg == Some(Numbered(pl, i - 1)) {
      NumberedIncreasing(pl, i - 1, i);
    }
  }

  /**
   * A loop that runs to completion queues each new segment as `QueuedAs`
   * says.
   */
  lemma {:induction false} CompletedRefreshInits(pl: MediaPlaylist, base: string, resolve: (string, string) -> Option<string>, i: nat, a: Acc, last: Option<SeqKey>)
    requires i <= |pl.segments| && InitInvariant(pl, base, resolve, i, a, last)
    requires RefreshFrom(pl, base, resolve, i, a).1.None?
    ensures forall k, j ::
      (|a.queue| <= k < |RefreshFrom(pl, base, resolve, i, a).0.queue| && i <= j < |pl.segments| &&
       Segments.Key(RefreshFrom(pl, base, resolve, i, a).0.queue[k].0) == Numbered(pl, j)) ==>
        QueuedAs(RefreshFrom(pl, base, resolve, i, a).0.queue[k], pl, base, resolve, j, last)
    ensures forall k :: |a.queue| <= k < |RefreshFrom(pl, base, resolve, i, a).0.queue| ==>
      !AtMost(Segments.Key(RefreshFrom(pl, base, resolve, i, a).0.queue[k].0), a.lastSeg)
    decreases |pl.segments| - i
  {
    if i < |pl.segments| {
      StepInits(pl, base, resolve, i, a, last);
      var b := SegmentStep(pl, base, resolve, i, a).acc;
      CompletedRefreshInits(pl, base, resolve, i + 1, b, last);
      var final := RefreshFrom(pl, base, resolve, i + 1, b).0;
      assert final == RefreshFrom(pl, base, resolve, i, a).0;
      forall k | |a.queue| <= k < |final.queue|
        ensures !AtMost(Segments.Key(final.queue[k].0), a.lastSeg)
      {
        if k < |b.queue| {
          assert final.queue[k] == b.queue[k];
        }
      }
      forall k, j | |a.queue| <= k < |final.queue| && i <= j < |pl.segments| && Segments.Key(final.queue[k].0) == Numbered(pl, j)
        ensures QueuedAs(final.queue[k], pl, base, resolve, j, last)
      {
        if k < |b.queue| {
          assert final.queue[k] == b.queue[k];
          NumberedInjective(pl, i, j);
        }
      }
    }
  }

  /**
   * A completed refresh queues each new segment at its resolved URL and
   * byte range, with the initialisation section of the latest `EXT-X-MAP`
   * among the new segments up to it, and none when no new segment before
   * it carries one: map tags on segments already taken in earlier are not
   * carried over.
   */
  lemma RefreshInitialisesSegments(st: LiveState, pl: MediaPlaylist, base: string, now: nat,
                                   resolve: (string, string) -> Option<string>)
    requires Refresh(st, Ok(pl), base, now, resolve).0.Ok?
    ensures var st1 := Refresh(st, Ok(pl), base, now, resolve).1;
      forall k, j :: (|st.queue| <= k < |st1.queue| && 0 <= j < |pl.segments| && Segments.Key(st1.queue[k].0) == Numbered(pl, j)) ==>
        QueuedAs(st1.queue[k], pl, base, resolve, j, st.lastSeg)
  {
    assert pl.segments[..0] == [];
    CompletedRefreshInits(pl, base, resolve, 0, StartAcc(st.queue, st.lastSeg), st.lastSeg);
  }

  // ---------------------------------------------------------------------
  // chunk
  // ---------------------------------------------------------------------

  /** Milliseconds between playlist refreshes. */
  const LIVE_REFRESH_MS: nat := 20000

  /** A refresh is due once `LIVE_REFRESH_MS` have passed since the last one. */
  predicate Due(lastRefresh: nat, now: nat)
    requires lastRefresh <= now
  {
    now - lastRefresh >= LIVE_REFRESH_MS
  }

  /**
   * `chunk`, with `now` the clock reading after the wait for new segments,
   * `refreshedAt` the clock reading at the end of a refresh, the refresh's
   * other inputs, the segment download as `fetchSegment`, and the key
   * download and cipher as in `Encryption::decrypt`.
   */
  function ChunkStep(st: LiveState, now: nat, playlist: Result<MediaPlaylist, VideoError>, base: string, refreshedAt: nat,
                     resolve: (string, string) -> Option<string>, fetchSegment: string -> Option<Reply>,
                     fetchKey: string -> Result<seq<byte>, VideoError>,
                     aesCbc: (seq<byte>, seq<byte>, seq<byte>) -> Result<seq<byte>, string>)
    : (out: (Result<Option<seq<byte>>, VideoError>, LiveState))
    requires st.lastRefresh <= now
    requires QueueOk(st.queue, st.lastSeg)
    requires forall u :: fetchKey(u).Ok? ==> |fetchKey(u).value| >= 16
    ensures out.0 == Ok(None) <==> st.isEnd && st.queue == []
    ensures st.isEnd ==> out.1.isEnd
    ensures var mid := if Due(st.lastRefresh, now) && !st.isEnd then Refresh(st, playlist, base, refreshedAt, resolve) else (Ok(()), st);
      && (!(st.isEnd && st.queue == []) && mid.0.Err? ==> out == (Err(mid.0.error), mid.1))
      && (!(st.isEnd && st.queue == []) && mid.0.Ok? ==>
        && (mid.1.queue == [] ==> out == (Ok(Some([])), mid.1))
        && (out.0.Err? ==> out.1 == mid.1)
        && (out.0.Ok? && mid.1.queue != [] ==> out.1 == mid.1.(queue := mid.1.queue[1..])))
    ensures var mid := if Due(st.lastRefresh, now) && !st.isEnd then Refresh(st, playlist, base, refreshedAt, resolve) else (Ok(()), st);
      !(st.isEnd && st.queue == []) && mid.0.Ok? && mid.1.queue != [] ==>
        var head := mid.1.queue[0];
        var reply := fetchSegment(Url(head.0));
        var body := if reply.None? then Err(ReqwestMiddleware) else Body(reply.value);
        && !head.1.SampleAes?
        && (body.Err? ==> out.0 == Err(body.error))
        && (body.Ok? ==>
          var plain := Decrypt(head.1, body.value, fetchKey, aesCbc);
          && (out.0.Ok? <==> plain.Ok?)
          && (plain.Ok? ==> out.0 == Ok(Some(plain.value)))
          && (plain.Err? ==> out.0 == Err(plain.error)))
  {
    if st.isEnd && st.queue == [] then (Ok(None), st)
    else
      var mid := if Due(st.lastRefresh, now) && !st.isEnd then Refresh(st, playlist, base, refreshedAt, resolve) else (Ok(()), st);
      var st1 := mid.1;
      if mid.0.Err? then (Err(mid.0.error), st1)
      else if st1.queue == [] then (Ok(Some([])), st1)
      else
        RefreshKeepsQueueOk(st, playlist, base, refreshedAt, resolve);
        var first := st1.queue[0];
        var reply := fetchSegment(Url(first.0));
        var body := if reply.None? then Err(ReqwestMiddleware) else Body(reply.value);
        if body.Err? then (Err(body.error), st1)
        else
          var plain := Decrypt(first.1, body.value, fetchKey, aesCbc);
          if plain.Err? then (Err(plain.error), st1)
          else (Ok(Some(plain.value)), st1.(queue := st1.queue[1..]))
  }

  /** A call of `chunk` keeps the queue invariant. */
  lemma ChunkKeepsQueueOk(st: LiveState, now: nat, playlist: Result<MediaPlaylist, VideoError>, base: string, refreshedAt: nat,
                          resolve: (string, string) -> Option<string>, fetchSegment: string -> Option<Reply>,
                          fetchKey: string -> Result<seq<byte>, VideoError>,
                          aesCbc: (seq<byte>, seq<byte>, seq<byte>) -> Result<seq<byte>, string>)
    requires st.lastRefresh <= now
    requires QueueOk(st.queue, st.lastSeg)
    requires forall u :: fetchKey(u).Ok? ==> |fetchKey(u).value| >= 16
    ensures var st2 := ChunkStep(st, now, playlist, base, refreshedAt, resolve, fetchSegment, fetchKey, aesCbc).1;
      QueueOk(st2.queue, st2.lastSeg)
  {
    RefreshKeepsQueueOk(st, playlist, base, refreshedAt, resolve);
  }

  // ---------------------------------------------------------------------
  // The stream
  // ---------------------------------------------------------------------

  class LiveStream {
    const streamUrl: string
    var segments: seq<Entry>
    var isEnd: bool
    var lastSeg: Option<SeqKey>
    var lastRefresh: nat

    /** `LiveStream::new`: nothing queued, nothing taken in, not ended, never refreshed. */
    constructor(streamUrl: string)
      ensures this.streamUrl == streamUrl && segments == [] && !isEnd && lastSeg.None? && lastRefresh == 0
      ensures Valid()
    {
      this.streamUrl := streamUrl;
      segments := [];
      isEnd := false;
      lastSeg := None;
      lastRefresh := 0;
    }

    function State(): LiveState
      reads this
    {
      LiveState(segments, lastSeg, isEnd, lastRefresh)
    }

    predicate Valid()
      reads this
    {
      QueueOk(segments, lastSeg)
    }

    /** `LiveStream::refresh_playlist` */
    method RefreshPlaylist(playlist: Result<MediaPlaylist, VideoError>, now: nat, resolve: (string, string) -> Option<string>)
      returns (r: Result<(), VideoError>)
      modifies this
      ensures (r, State()) == Refresh(old(State()), playlist, streamUrl, now, resolve)
      ensures old(Valid()) ==> Valid()
    {
      if Valid() {
        RefreshKeepsQueueOk(State(), playlist, streamUrl, now, resolve);
      }
      if playlist.Err? {
        return Err(playlist.error);
      }
      var pl := playlist.value;
      var curInit: Option<RemoteData> := None;
      var disconOffset := 0;
      var encryption := Unencrypted;
      var i := 0;
      while i < |pl.segments|
        invariant i <= |pl.segments|
        invariant RefreshFrom(pl, streamUrl, resolve, 0, StartAcc(old(segments), old(lastSeg)))
               == RefreshFrom(pl, streamUrl, resolve, i, Acc(segments, lastSeg, disconOffset, encryption, curInit))
        invariant isEnd == old(isEnd) && lastRefresh == old(lastRefresh)
      {
        var stop;
        stop, disconOffset, encryption, curInit := RefreshSegment(pl, i, resolve, disconOffset, encryption, curInit);
        if stop.Some? {
          return Err(stop.value);
        }
        i := i + 1;
      }
      lastRefresh := now;
      if pl.endList {
        isEnd := pl.endList;
      }
      return Ok(());
    }

    /**
     * The body of the loop in `refresh_playlist`, for the `i`-th segment;
     * `stop` is the error that ends the loop. Its contract ties the fields
     * to `SegmentStep`; what a round promises (at most one entry appended,
     * `last_seg` never lowered, the queue invariant kept) is proved about
     * that function.
     */
    method RefreshSegment(pl: MediaPlaylist, i: nat, resolve: (string, string) -> Option<string>,
                          disconOffset0: nat, encryption0: Encryption, curInit0: Option<RemoteData>)
      returns (stop: Option<VideoError>, disconOffset: nat, encryption: Encryption, curInit: Option<RemoteData>)
      requires i < |pl.segments|
      modifies this
      ensures var step := SegmentStep(pl, streamUrl, resolve, i, Acc(old(segments), old(lastSeg), disconOffset0, encryption0, curInit0));
        && step.acc == Acc(segments, lastSeg, disconOffset, encryption, curInit)
        && (stop.Some? <==> step.Stop?)
        && (stop.Some? ==> stop.value == step.error)
      ensures isEnd == old(isEnd) && lastRefresh == old(lastRefresh)
    {
      disconOffset, encryption, curInit := disconOffset0, encryption0, curInit0;
      var segment := pl.segments[i];
      var mediaSeq := pl.mediaSequence + i;
      ghost var a := Acc(segments, lastSeg, disconOffset, encryption, curInit);
      if segment.discontinuity {
        disconOffset := disconOffset + 1;
      }
      var disconSeq := pl.discontinuitySequence + disconOffset;
      ghost var a0 := a.(disconOffset := disconOffset);
      if lastSeg.Some? && !KeyBelow(lastSeg.value, (disconSeq, mediaSeq)) {
        return None, disconOffset, encryption, curInit;
      }
      ghost var settled := SegmentEncryption(segment, streamUrl, mediaSeq, resolve, encryption);
      if segment.key.Some? {
        var enc := New(segment.key.value, streamUrl, mediaSeq, resolve);
        assert enc == settled;
        if enc.Err? {
          return Some(enc.error), disconOffset, encryption, curInit;
        }
        encryption := enc.value;
      }
      assert settled == Ok(encryption);
      lastSeg := Some((disconSeq, mediaSeq));
      ghost var a1 := Acc(segments, lastSeg, disconOffset, encryption, curInit);
      assert SegmentStep(pl, streamUrl, resolve, i, a) == TakeIn(segment, streamUrl, resolve, (disconSeq, mediaSeq), a1);
      stop, curInit := QueueSegment(segment, (disconSeq, mediaSeq), resolve, disconOffset, encryption, curInit);
    }

    /**
     * The end of one loop round, once the segment's encryption is settled:
     * resolve its URLs, carry the initialisation section forward, and
     * queue it unless its pair is queued already. Its contract ties the
     * fields to `TakeIn`, whose own contract states what is appended: the
     * resolved URL and byte range, with the initialisation section the map
     * tag sets or the one already in force.
     */
    method QueueSegment(segment: MediaSegment, key: SeqKey, resolve: (string, string) -> Option<string>,
                        disconOffset: nat, encryption: Encryption, curInit0: Option<RemoteData>)
      returns (stop: Option<VideoError>, curInit: Option<RemoteData>)
      modifies this
      ensures var r := TakeIn(segment, streamUrl, resolve, key, Acc(old(segments), lastSeg, disconOffset, encryption, curInit0));
        && r.acc == Acc(segments, lastSeg, disconOffset, encryption, curInit)
        && (stop.Some? <==> r.Stop?)
        && (stop.Some? ==> stop.value == r.error)
      ensures lastSeg == old(lastSeg) && isEnd == old(isEnd) && lastRefresh == old(lastRefresh)
    {
      curInit := curInit0;
      var segUrl := MakeAbsoluteUrl(resolve, streamUrl, segment.uri);
      if segUrl.Err? {
        return Some(segUrl.error), curInit;
      }
      var init: Option<RemoteData>;
      if segment.mapTag.Some? {
        var mapUrl := MakeAbsoluteUrl(resolve, streamUrl, segment.mapTag.value.uri);
        if mapUrl.Err? {
          return Some(mapUrl.error), curInit;
        }
        init := Some(RemoteData(mapUrl.value, segment.mapTag.value.byteRange));
        curInit := init;
      } else {
        init := curInit;
      }
      var seg := Segment(RemoteData(segUrl.value, segment.byteRange), key.0, key.1, Unknown, init);
      if !HasKey(segments, key) {
        segments := segments + [(seg, encryption)];
      }
      return None, curInit;
    }

    /** `LiveStream::chunk`, without the wait before a due refresh. */
    method Chunk(now: nat, playlist: Result<MediaPlaylist, VideoError>, refreshedAt: nat,
                 resolve: (string, string) -> Option<string>, fetchSegment: string -> Option<Reply>,
                 fetchKey: string -> Result<seq<byte>, VideoError>,
                 aesCbc: (seq<byte>, seq<byte>, seq<byte>) -> Result<seq<byte>, string>)
      returns (r: Result<Option<seq<byte>>, VideoError>)
      requires lastRefresh <= now && Valid()
      requires forall u :: fetchKey(u).Ok? ==> |fetchKey(u).value| >= 16
      modifies this
      ensures (r, State()) == ChunkStep(old(State()), now, playlist, streamUrl, refreshedAt, resolve, fetchSegment, fetchKey, aesCbc)
      ensures Valid()
    {
      ChunkKeepsQueueOk(State(), now, playlist, streamUrl, refreshedAt, resolve, fetchSegment, fetchKey, aesCbc);
      if isEnd && segments == [] {
        return Ok(None);
      }
      if Due(lastRefresh, now) && !isEnd {
        var refreshed := RefreshPlaylist(playlist, refreshedAt, resolve);
        if refreshed.Err? {
          return Err(refreshed.error);
        }
      }
      if segments == [] {
        return Ok(Some([]));
      }
      var first := segments[0];
      var reply := fetchSegment(Url(first.0));
      if reply.None? {
        return Err(ReqwestMiddleware);
      }
      var buf := ReadBody(reply.value);
      if buf.Err? {
        return Err(buf.error);
      }
      var plain := Decrypt(first.1, buf.value, fetchKey, aesCbc);
      if plain.Err? {
        return Err(plain.error);
      }
      segments := segments[1..];
      return Ok(Some(plain.value));
    }
  }
}
