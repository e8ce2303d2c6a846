/**
 * `Playlist::get_playlist_url`: the playlist id found anywhere in a URL or
 * text by the two playlist patterns, turned into the canonical playlist
 * URL. The patterns are
 *   PLAYLIST_ID  `(PL|FL|UU|LL|RD|OL)[a-zA-Z0-9-_]{16,41}`
 *   ALBUM        `(RDC|O)LAK5uy_[a-zA-Z0-9-_]{33}`
 * matched as the regex engine does: the leftmost start wins, and the
 * repetition takes as many id characters as it may.
 */
module PlaylistUrl {
  import opened Wrappers
  import opened Text
  import opened VideoId

  const MIN_ID_RUN: nat := 16
  const MAX_ID_RUN: nat := 41
  const ALBUM_ID_RUN: nat := 33
  const PLAYLIST_URL_PREFIX := "https://www.youtube.com/playlist?list="

  /** A match: where it starts and how long it is. */
  datatype Match = Match(start: nat, len: nat)

  /** The number of id characters from `i` on, taking at most `max`. */
  function IdRun(s: string, i: nat, max: nat): (n: nat)
    requires i <= |s|
    ensures n <= max && i + n <= |s|
    decreases max
  {
    if max == 0 || i == |s| || !IsIdChar(s[i]) then 0 else 1 + IdRun(s, i + 1, max - 1)
  }

  /** The run holds only id characters, and stops short of `max` only at the end or at another character. */
  lemma {:induction false} IdRunChars(s: string, i: nat, max: nat)
    requires i <= |s|
    ensures forall k :: i <= k < i + IdRun(s, i, max) ==> IsIdChar(s[k])
    ensures var n := IdRun(s, i, max); n < max && i + n < |s| ==> !IsIdChar(s[i + n])
    decreases max
  {
    if !(max == 0 || i == |s| || !IsIdChar(s[i])) {
      IdRunChars(s, i + 1, max - 1);
    }
  }

  /** `k` id characters in a row make a run of at least `k`, up to `max`. */
  lemma {:induction false} IdRunAtLeast(s: string, i: nat, max: nat, k: nat)
    requires i + k <= |s|
    requires forall j :: i <= j < i + k ==> IsIdChar(s[j])
    ensures IdRun(s, i, max) >= if k < max then k else max
    decreases k
  {
    if k > 0 && max > 0 {
      IdRunAtLeast(s, i + 1, max - 1, k - 1);
    }
  }

  /** A run of `k` id characters that cannot go on is exactly what `IdRun` takes. */
  lemma {:induction false} IdRunExact(s: string, i: nat, max: nat, k: nat)
    requires i + k <= |s| && k <= max
    requires forall j :: i <= j < i + k ==> IsIdChar(s[j])
    requires k == max || i + k == |s| || !IsIdChar(s[i + k])
    ensures IdRun(s, i, max) == k
    decreases k
  {
    if k > 0 {
      IdRunExact(s, i + 1, max - 1, k - 1);
    }
  }

  /** The six two-letter playlist kinds. */
  predicate IsPlaylistKind(a: char, b: char) {
    (a == 'P' && b == 'L') || (a == 'F' && b == 'L') || (a == 'U' && b == 'U')
    || (a == 'L' && b == 'L') || (a == 'R' && b == 'D') || (a == 'O' && b == 'L')
  }

  /** The length of the PLAYLIST_ID match starting at `p`, if one starts there. */
  function PlaylistIdAt(s: string, p: nat): (r: Option<nat>)
    requires p <= |s|
    ensures r.Some? ==> p + r.value <= |s| && 2 + MIN_ID_RUN <= r.value <= 2 + MAX_ID_RUN
  {
    if p + 2 <= |s| && IsPlaylistKind(s[p], s[p + 1]) && IdRun(s, p + 2, MAX_ID_RUN) >= MIN_ID_RUN
    then Some(2 + IdRun(s, p + 2, MAX_ID_RUN))
    else None
  }

  const ALBUM_LONG_HEAD := "RDCLAK5uy_"
  const ALBUM_SHORT_HEAD := "OLAK5uy_"

  /** The length of the ALBUM match starting at `p`, if one starts there. */
  function AlbumIdAt(s: string, p: nat): (r: Option<nat>)
    requires p <= |s|
    ensures r.Some? ==> p + r.value <= |s|
  {
    if StartsWith(s[p..], ALBUM_LONG_HEAD) && IdRun(s, p + |ALBUM_LONG_HEAD|, ALBUM_ID_RUN) == ALBUM_ID_RUN
    then Some(|ALBUM_LONG_HEAD| + ALBUM_ID_RUN)
    else if StartsWith(s[p..], ALBUM_SHORT_HEAD) && IdRun(s, p + |ALBUM_SHORT_HEAD|, ALBUM_ID_RUN) == ALBUM_ID_RUN
    then Some(|ALBUM_SHORT_HEAD| + ALBUM_ID_RUN)
    else None
  }

  /** The leftmost start in `from..end` where `at` finds a match, with that match's length. */
  function FirstMatch(at: nat -> Option<nat>, from: nat, end: nat): (r: Option<Match>)
    requires from <= end
    ensures r.Some? ==> from <= r.value.start <= end && at(r.value.start) == Some(r.value.len)
    ensures r.Some? ==> forall p :: from <= p < r.value.start ==> at(p).None?
    ensures r.None? ==> forall p :: from <= p <= end ==> at(p).None?
    decreases end - from
  {
    match at(from)
    case Some(n) => Some(Match(from, n))
    case None => if from == end then None else FirstMatch(at, from + 1, end)
  }

  /** PLAYLIST_ID tried at each position of `s`. */
  function PlaylistAt(s: string): nat -> Option<nat> {
    (p: nat) => if p <= |s| then PlaylistIdAt(s, p) else None
  }

  /** ALBUM tried at each position of `s`. */
  function AlbumAt(s: string): nat -> Option<nat> {
    (p: nat) => if p <= |s| then AlbumIdAt(s, p) else None
  }

  /** The leftmost PLAYLIST_ID match at or after `from`. */
  function FirstPlaylistId(s: string, from: nat): (r: Option<Match>)
    requires from <= |s|
    ensures r.Some? ==> from <= r.value.start <= |s| && PlaylistIdAt(s, r.value.start) == Some(r.value.len)
    ensures r.Some? ==> forall p :: from <= p < r.value.start ==> PlaylistIdAt(s, p).None?
    ensures r.None? ==> forall p :: from <= p <= |s| ==> PlaylistIdAt(s, p).None?
  {
    PlaylistAtMeans(s);
    FirstMatch(PlaylistAt(s), from, |s|)
  }

  /** The leftmost ALBUM match at or after `from`. */
  function FirstAlbumId(s: string, from: nat): (r: Option<Match>)
    requires from <= |s|
    ensures r.Some? ==> from <= r.value.start <= |s| && AlbumIdAt(s, r.value.start) == Some(r.value.len)
    ensures r.Some? ==> forall p :: from <= p < r.value.start ==> AlbumIdAt(s, p).None?
    ensures r.None? ==> forall p :: from <= p <= |s| ==> AlbumIdAt(s, p).None?
  {
    AlbumAtMeans(s);
    FirstMatch(AlbumAt(s), from, |s|)
  }

  lemma PlaylistAtMeans(s: string)
    ensures forall p: nat :: p <= |s| ==> PlaylistAt(s)(p) == PlaylistIdAt(s, p)
  {
  }

  lemma AlbumAtMeans(s: string)
    ensures forall p: nat :: p <= |s| ==> AlbumAt(s)(p) == AlbumIdAt(s, p)
  {
  }

  /**
   * The text of the PLAYLIST_ID match if there is one, else of the ALBUM
   * match, else empty: a piece of the input, empty only when PLAYLIST_ID
   * matches nowhere.
   */
  function MatchedId(s: string): (r: string)
    ensures r != "" ==> exists i :: 0 <= i <= |s| && OccursAt(s, r, i)
    ensures r == "" ==> forall p :: 0 <= p <= |s| ==> PlaylistIdAt(s, p).None?
  {
    match FirstPlaylistId(s, 0)
    case Some(m) =>
      assert OccursAt(s, s[m.start..m.start + m.len], m.start);
      s[m.start..m.start + m.len]
    case None =>
      match FirstAlbumId(s, 0)
      case Some(m) =>
        assert OccursAt(s, s[m.start..m.start + m.len], m.start);
        s[m.start..m.start + m.len]
      case None => ""
  }

  /** A mix (`RD`) that is not an album. */
  predicate IsMix(id: string) {
    StartsWith(id, "RD") && FirstAlbumId(id, 0).None?
  }

  /**
   * `get_playlist_url`: no URL without a match or for a mix; otherwise the
   * canonical playlist URL of the matched id.
   */
  function GetPlaylistUrl(s: string): (r: Option<string>)
    ensures r.None? <==> MatchedId(s) == "" || IsMix(MatchedId(s))
    ensures r.Some? ==> r.value == PLAYLIST_URL_PREFIX + MatchedId(s)
  {
    var id := Trim(MatchedId(s));
    MatchedIdIsTrimmed(s);
    if id == "" then None
    else if StartsWith(id, "RD") && FirstAlbumId(id, 0).None? then None
    else Some(PLAYLIST_URL_PREFIX + id)
  }

  /** An album id is also a playlist id starting at the same place. */
  lemma AlbumIsPlaylistId(s: string, p: nat)
    requires p <= |s| && AlbumIdAt(s, p).Some?
    ensures PlaylistIdAt(s, p).Some?
  {
    AlbumHeadsAreKinds();
    if StartsWith(s[p..], ALBUM_LONG_HEAD) && IdRun(s, p + |ALBUM_LONG_HEAD|, ALBUM_ID_RUN) == ALBUM_ID_RUN {
      HeadThenRun(s, p, ALBUM_LONG_HEAD);
    } else {
      HeadThenRun(s, p, ALBUM_SHORT_HEAD);
    }
  }

  /** Both album heads open with a playlist kind and go on with id characters. */
  lemma AlbumHeadsAreKinds()
    ensures IsPlaylistKind(ALBUM_LONG_HEAD[0], ALBUM_LONG_HEAD[1])
    ensures forall j :: 2 <= j < |ALBUM_LONG_HEAD| ==> IsIdChar(ALBUM_LONG_HEAD[j])
    ensures IsPlaylistKind(ALBUM_SHORT_HEAD[0], ALBUM_SHORT_HEAD[1])
    ensures forall j :: 2 <= j < |ALBUM_SHORT_HEAD| ==> IsIdChar(ALBUM_SHORT_HEAD[j])
  {
  }

  /** A head of a playlist kind and id characters, followed by a full album run, is a playlist id. */
  lemma HeadThenRun(s: string, p: nat, head: string)
    requires |head| >= 2 && IsPlaylistKind(head[0], head[1])
    requires forall j :: 2 <= j < |head| ==> IsIdChar(head[j])
    requires p <= |s| && StartsWith(s[p..], head)
    requires IdRun(s, p + |head|, ALBUM_ID_RUN) == ALBUM_ID_RUN
    ensures PlaylistIdAt(s, p).Some?
  {
    IdRunChars(s, p + |head|, ALBUM_ID_RUN);
    forall j | p + 2 <= j < p + |head| + ALBUM_ID_RUN
      ensures IsIdChar(s[j])
    {
      if j < p + |head| {
        assert s[j] == s[p..][..|head|][j - p];
      }
    }
    IdRunAtLeast(s, p + 2, MAX_ID_RUN, |head| - 2 + ALBUM_ID_RUN);
    assert s[p] == s[p..][..|head|][0] && s[p + 1] == s[p..][..|head|][1];
  }

  /** The ALBUM pattern is never consulted: whenever it matches, PLAYLIST_ID matches too. */
  lemma AlbumFallbackUnused(s: string)
    ensures FirstAlbumId(s, 0).Some? ==> FirstPlaylistId(s, 0).Some?
  {
    if FirstAlbumId(s, 0).Some? {
      AlbumIsPlaylistId(s, FirstAlbumId(s, 0).value.start);
    }
  }

  /** The text of a PLAYLIST_ID match: two kind letters and then only id characters. */
  lemma PlaylistMatchShape(s: string, p: nat, n: nat)
    requires p <= |s| && PlaylistIdAt(s, p) == Some(n)
    ensures var id := s[p..p + n];
      && 2 + MIN_ID_RUN <= |id| <= 2 + MAX_ID_RUN && IsPlaylistKind(id[0], id[1])
      && forall k :: 2 <= k < |id| ==> IsIdChar(id[k])
  {
    IdRunChars(s, p + 2, MAX_ID_RUN);
    var id := s[p..p + n];
    assert forall k :: 2 <= k < |id| ==> id[k] == s[p + k];
  }

  /** A matched id is a PLAYLIST_ID match: two kind letters and then only id characters. */
  lemma MatchedIdShape(s: string)
    requires MatchedId(s) != ""
    ensures var id := MatchedId(s);
      && 2 + MIN_ID_RUN <= |id| <= 2 + MAX_ID_RUN && IsPlaylistKind(id[0], id[1])
      && forall k :: 2 <= k < |id| ==> IsIdChar(id[k])
  {
    AlbumFallbackUnused(s);
    var m := FirstPlaylistId(s, 0).value;
    PlaylistMatchShape(s, m.start, m.len);
  }

  /** The matched id has no surrounding whitespace, so trimming it changes nothing. */
  lemma MatchedIdIsTrimmed(s: string)
    ensures Trim(MatchedId(s)) == MatchedId(s)
  {
    var id := MatchedId(s);
    if id != "" {
      MatchedIdShape(s);
      IdCharIsNotWhitespace(id[|id| - 1]);
      TrimUnchanged(id);
    }
  }

  /** The canonical URL's prefix holds none of the kind letters. */
  lemma PrefixHasNoKindLetter(k: nat)
    requires k < |PLAYLIST_URL_PREFIX|
    ensures !(PLAYLIST_URL_PREFIX[k] in "PFULRO")
  {
  }

  /** The leftmost match is the first start with a match, when none starts before it. */
  lemma {:induction false} FirstMatchAt(at: nat -> Option<nat>, from: nat, end: nat, p: nat, n: nat)
    requires from <= p <= end && at(p) == Some(n)
    requires forall q :: from <= q < p ==> at(q).None?
    ensures FirstMatch(at, from, end) == Some(Match(p, n))
    decreases p - from
  {
    if from < p {
      FirstMatchAt(at, from + 1, end, p, n);
    }
  }

  /** Within the canonical URL of an id, the id itself is the leftmost match. */
  lemma CanonicalMatch(id: string)
    requires 2 + MIN_ID_RUN <= |id| <= 2 + MAX_ID_RUN && IsPlaylistKind(id[0], id[1])
    requires forall k :: 2 <= k < |id| ==> IsIdChar(id[k])
    ensures MatchedId(PLAYLIST_URL_PREFIX + id) == id
  {
    forall k | 0 <= k < |PLAYLIST_URL_PREFIX|
      ensures !(PLAYLIST_URL_PREFIX[k] in "PFULRO")
    {
      PrefixHasNoKindLetter(k);
    }
    LeadingIdMatch(PLAYLIST_URL_PREFIX, id);
  }

  /** After a prefix without kind letters, a whole playlist id is the leftmost match. */
  lemma LeadingIdMatch(pre: string, id: string)
    requires forall k :: 0 <= k < |pre| ==> !(pre[k] in "PFULRO")
    requires 2 + MIN_ID_RUN <= |id| <= 2 + MAX_ID_RUN && IsPlaylistKind(id[0], id[1])
    requires forall k :: 2 <= k < |id| ==> IsIdChar(id[k])
    ensures MatchedId(pre + id) == id
  {
    var u := pre + id;
    var p := |pre|;
    forall q | 0 <= q < p
      ensures PlaylistAt(u)(q).None?
    {
      assert u[q] == pre[q];
    }
    IdMatchesAt(pre, id);
    FirstMatchAt(PlaylistAt(u), 0, |u|, p, |id|);
    assert u[p..p + |id|] == id;
  }

  /** A whole playlist id after a prefix matches there, all of it. */
  lemma IdMatchesAt(pre: string, id: string)
    requires 2 + MIN_ID_RUN <= |id| <= 2 + MAX_ID_RUN && IsPlaylistKind(id[0], id[1])
    requires forall k :: 2 <= k < |id| ==> IsIdChar(id[k])
    ensures PlaylistIdAt(pre + id, |pre|) == Some(|id|)
  {
    var u := pre + id;
    var p := |pre|;
    assert forall j :: p + 2 <= j < |u| ==> u[j] == id[j - p];
    IdRunExact(u, p + 2, MAX_ID_RUN, |id| - 2);
    assert u[p] == id[0] && u[p + 1] == id[1];
  }

  /** Normalising a canonical playlist URL gives it back. */
  lemma GetPlaylistUrlIdempotent(s: string)
    requires GetPlaylistUrl(s).Some?
    ensures GetPlaylistUrl(GetPlaylistUrl(s).value) == GetPlaylistUrl(s)
  {
    MatchedIdShape(s);
    CanonicalMatch(MatchedId(s));
  }
}
