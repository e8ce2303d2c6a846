/**
 * Video identifiers (src/utils.rs, `get_video_id`, `validate_id` and
 * `get_url_video_id`).
 *
 * An identifier is eleven characters of `[a-zA-Z0-9-_]`. A URL yields one
 * either through its `v` query parameter or through the path regex
 * `VALID_PATH_DOMAINS`, which is written out here as explicit
 * position-by-position predicates with the leftmost-first and greedy
 * choices the regex engine makes. Parsing the URL (`url::Url::parse` and
 * its decoded `query_pairs`) is a parameter.
 */
module VideoId {
  import opened Wrappers
  import opened Text
  import opened StringUtils

  const ID_LENGTH: nat := 11

  /**
   * `[a-zA-Z0-9-_]`, the class of `ID_REGEX`. The path regex's `[\w-]` is
   * modelled by the same class, that is by the ASCII part of `\w` only.
   */
  predicate IsIdChar(c: char) {
    IsWordChar(c) || c == '-'
  }

  /** No id character is whitespace, so trimming never cuts into an id. */
  lemma IdCharIsNotWhitespace(c: char)
    requires IsIdChar(c)
    ensures !IsWhitespace(c)
  {
  }

  /**
   * `validate_id`: `^[a-zA-Z0-9-_]{11}$` against the trimmed text. Nothing
   * shorter than eleven characters passes.
   */
  predicate ValidateId(id: string): (b: bool)
    ensures b ==> |id| >= ID_LENGTH
  {
    var t := Trim(id);
    |t| == ID_LENGTH && forall i :: 0 <= i < |t| ==> IsIdChar(t[i])
  }

  /** Eleven id characters pass as they are. */
  lemma ExactIdValidates(id: string)
    requires |id| == ID_LENGTH && forall i :: 0 <= i < |id| ==> IsIdChar(id[i])
    ensures ValidateId(id)
  {
    IdCharIsNotWhitespace(id[0]);
    IdCharIsNotWhitespace(id[|id| - 1]);
    TrimUnchanged(id);
  }

  /** `^https?://` */
  predicate IsHttpUrl(s: string) {
    StartsWith(s, "http://") || StartsWith(s, "https://")
  }

  // ---------------------------------------------------------------------
  // VALID_PATH_DOMAINS:
  // (?m)(?:^|\W)(?:youtube(?:-nocookie)?\.com/(?:.*[?&]v=|v/|shorts/|e(?:mbed)?/|[^/]+/.+/)|youtu\.be/)([\w-]+)
  // ---------------------------------------------------------------------

  /**
   * The first `c` at or after `i`, or the end: with `'\n'` the end of the
   * line, where `.` stops under the `(?m)` flag; with `'/'` where `[^/]+`
   * stops.
   */
  function NextChar(s: string, i: nat, c: char): (j: nat)
    requires i <= |s|
    ensures i <= j <= |s| && (j == |s| || s[j] == c)
    ensures forall k :: i <= k < j ==> s[k] != c
    decreases |s| - i
  {
    if i == |s| || s[i] == c then i else NextChar(s, i + 1, c)
  }

  /** The end of the longest run of `[\w-]` from `i`. */
  function IdRunEnd(s: string, i: nat): (j: nat)
    requires i <= |s|
    ensures i <= j <= |s| && (j == |s| || !IsIdChar(s[j]))
    ensures forall k :: i <= k < j ==> IsIdChar(s[k])
    decreases |s| - i
  {
    if i == |s| || !IsIdChar(s[i]) then i else IdRunEnd(s, i + 1)
  }

  /** The greedy capture group `([\w-]+)` at `i`. */
  function CaptureAt(s: string, i: nat): (r: Option<string>)
    ensures r.Some? ==> i < |s| && |r.value| >= 1 && OccursAt(s, r.value, i)
    ensures r.Some? ==> forall k :: 0 <= k < |r.value| ==> IsIdChar(r.value[k])
    ensures r.Some? ==> i + |r.value| == |s| || !IsIdChar(s[i + |r.value|])
    ensures r.None? <==> i >= |s| || !IsIdChar(s[i])
  {
    if i < |s| && IsIdChar(s[i]) then Some(s[i..IdRunEnd(s, i)]) else None
  }

  /** `[?&]v=` at `q`, followed by an identifier character. */
  predicate VParamAt(s: string, q: nat) {
    q < |s| && (s[q] == '?' || s[q] == '&') && OccursAt(s, "v=", q + 1) && CaptureAt(s, q + 3).Some?
  }

  /** The greedy `.*[?&]v=` followed by a capture: the last such marker in `[lo, hi)`. */
  function LastVParam(s: string, lo: nat, hi: nat): (r: Option<nat>)
    requires lo <= hi <= |s|
    ensures r.Some? ==> lo <= r.value < hi && VParamAt(s, r.value)
    ensures r.Some? ==> (forall q :: r.value < q < hi ==> !VParamAt(s, q))
    ensures r.None? ==> (forall q :: lo <= q < hi ==> !VParamAt(s, q))
    decreases hi - lo
  {
    if hi == lo then None
    else if VParamAt(s, hi - 1) then Some(hi - 1)
    else LastVParam(s, lo, hi - 1)
  }

  /** `/` at `q`, followed by an identifier character. */
  predicate SlashCaptureAt(s: string, q: nat) {
    q < |s| && s[q] == '/' && CaptureAt(s, q + 1).Some?
  }

  /** The greedy `.+/` followed by a capture: the last such `/` in `[lo, hi)`. */
  function LastSlashCapture(s: string, lo: nat, hi: nat): (r: Option<nat>)
    requires lo <= hi <= |s|
    ensures r.Some? ==> lo <= r.value < hi && SlashCaptureAt(s, r.value)
    ensures r.Some? ==> (forall q :: r.value < q < hi ==> !SlashCaptureAt(s, q))
    ensures r.None? ==> (forall q :: lo <= q < hi ==> !SlashCaptureAt(s, q))
    decreases hi - lo
  {
    if hi == lo then None
    else if SlashCaptureAt(s, hi - 1) then Some(hi - 1)
    else LastSlashCapture(s, lo, hi - 1)
  }

  /** `[^/]+/.+/([\w-]+)` at `e`. */
  function TwoSegmentsCapture(s: string, e: nat): Option<string>
    requires e <= |s|
  {
    var f := NextChar(s, e, '/');
    if f == e || f == |s| then None
    else
      var le := NextChar(s, f + 1, '\n');
      if le < f + 2 then None
      else
        match LastSlashCapture(s, f + 2, le)
        case None => None
        case Some(r) => CaptureAt(s, r + 1)
  }

  /** The alternatives after `youtube.com/`, tried in the order the regex lists them. */
  function AfterYoutube(s: string, e: nat): Option<string>
    requires e <= |s|
  {
    var q := LastVParam(s, e, NextChar(s, e, '\n'));
    if q.Some? then CaptureAt(s, q.value + 3)
    else if OccursAt(s, "v/", e) && CaptureAt(s, e + 2).Some? then CaptureAt(s, e + 2)
    else if OccursAt(s, "shorts/", e) && CaptureAt(s, e + 7).Some? then CaptureAt(s, e + 7)
    else if OccursAt(s, "embed/", e) && CaptureAt(s, e + 6).Some? then CaptureAt(s, e + 6)
    else if OccursAt(s, "e/", e) && CaptureAt(s, e + 2).Some? then CaptureAt(s, e + 2)
    else TwoSegmentsCapture(s, e)
  }

  /** The capture when the host part of the regex starts at `d`. */
  function PathIdAt(s: string, d: nat): Option<string>
    requires d <= |s|
  {
    if OccursAt(s, "youtube.com/", d) then AfterYoutube(s, d + 12)
    else if OccursAt(s, "youtube-nocookie.com/", d) then AfterYoutube(s, d + 21)
    else if OccursAt(s, "youtu.be/", d) then CaptureAt(s, d + 9)
    else None
  }

  /** A match starting at `p`: `^` (start of a line) before the host, or one `\W` character. */
  function MatchAt(s: string, p: nat): Option<string>
    requires p < |s|
  {
    if (p == 0 || s[p - 1] == '\n') && PathIdAt(s, p).Some? then PathIdAt(s, p)
    else if !IsWordChar(s[p]) then PathIdAt(s, p + 1)
    else None
  }

  /** A match is a non-empty run of identifier characters. */
  lemma MatchIsId(s: string, p: nat)
    requires p < |s|
    ensures var m := MatchAt(s, p); m.Some? ==> |m.value| >= 1 && forall k :: 0 <= k < |m.value| ==> IsIdChar(m.value[k])
  {
    PathIdAtIsId(s, p);
    PathIdAtIsId(s, p + 1);
  }

  lemma PathIdAtIsId(s: string, d: nat)
    requires d <= |s|
    ensures var m := PathIdAt(s, d); m.Some? ==> |m.value| >= 1 && forall k :: 0 <= k < |m.value| ==> IsIdChar(m.value[k])
  {
    if OccursAt(s, "youtube.com/", d) {
      AfterYoutubeIsId(s, d + 12);
    } else if OccursAt(s, "youtube-nocookie.com/", d) {
      AfterYoutubeIsId(s, d + 21);
    }
  }

  lemma AfterYoutubeIsId(s: string, e: nat)
    requires e <= |s|
    ensures var m := AfterYoutube(s, e); m.Some? ==> |m.value| >= 1 && forall k :: 0 <= k < |m.value| ==> IsIdChar(m.value[k])
  {
  }

  /** `VALID_PATH_DOMAINS.captures(s)` group 1: the leftmost match from `from` on. */
  function PathId(s: string, from: nat): (r: Option<string>)
    requires from <= |s|
    ensures r.Some? ==> |r.value| >= 1 && forall k :: 0 <= k < |r.value| ==> IsIdChar(r.value[k])
    decreases |s| - from
  {
    if from == |s| then None
    else
      MatchIsId(s, from);
      if MatchAt(s, from).Some? then MatchAt(s, from) else PathId(s, from + 1)
  }

  /** `query_pairs().find_map(...)`: the value of the first pair whose key is `key`. */
  function FirstValue(query: seq<(string, string)>, key: string): (r: Option<string>)
    ensures r.Some? <==> exists i | 0 <= i < |query| :: query[i].0 == key
    ensures r.Some? ==> exists i | 0 <= i < |query| :: query[i] == (key, r.value)
  {
    if query == [] then None
    else if query[0].0 == key then Some(query[0].1)
    else FirstValue(query[1..], key)
  }

  /** The candidate identifier of a URL, before the filter; None when the URL does not parse. */
  function UrlCandidate(url: string, parseQuery: string -> Option<seq<(string, string)>>): Option<string> {
    var t := Trim(url);
    match parseQuery(t)
    case None => None
    case Some(query) =>
      if FirstValue(query, "v").Some? then FirstValue(query, "v") else PathId(t, 0)
  }

  /**
   * The filter of `get_url_video_id` as written: the first eleven
   * characters are validated, but the whole candidate is returned.
   */
  function KeepIfPrefixValid(id: string): (r: Option<string>)
    ensures r.Some? <==> ValidateId(SubstringOf(id, 0, ID_LENGTH))
    ensures r.Some? ==> r.value == id
  {
    if ValidateId(SubstringOf(id, 0, ID_LENGTH)) then Some(id) else None
  }

  /** The filter as evidently intended: the validated eleven characters are the identifier. */
  function TakeValidPrefix(id: string): (r: Option<string>)
    ensures r.Some? <==> ValidateId(SubstringOf(id, 0, ID_LENGTH))
    ensures r.Some? ==> ValidateId(r.value) && |r.value| == ID_LENGTH && r.value == id[..ID_LENGTH]
  {
    if ValidateId(SubstringOf(id, 0, ID_LENGTH)) then Some(SubstringOf(id, 0, ID_LENGTH)) else None
  }

  /**
   * `get_url_video_id` as written (the final host check returns None on both
   * of its branches). It succeeds exactly where the corrected version does,
   * and its first eleven characters are what that version returns.
   */
  function UrlVideoIdAsWritten(url: string, parseQuery: string -> Option<seq<(string, string)>>): (r: Option<string>)
    ensures r.Some? <==> UrlVideoId(url, parseQuery).Some?
    ensures r.Some? ==> |r.value| >= ID_LENGTH && UrlVideoId(url, parseQuery) == Some(r.value[..ID_LENGTH])
  {
    match UrlCandidate(url, parseQuery)
    case None => None
    case Some(id) => KeepIfPrefixValid(id)
  }

  /**
   * `get_video_id` as written: a valid bare identifier comes back untouched;
   * otherwise only an `http(s)` URL can give a result, and that result
   * starts with eleven valid characters.
   */
  function GetVideoIdAsWritten(url: string, parseQuery: string -> Option<seq<(string, string)>>): (r: Option<string>)
    ensures ValidateId(url) ==> r == Some(url)
    ensures r.Some? && !ValidateId(url) ==>
      IsHttpUrl(Trim(url)) && |r.value| >= ID_LENGTH && ValidateId(r.value[..ID_LENGTH])
  {
    if ValidateId(url) then Some(url)
    else if IsHttpUrl(Trim(url)) then UrlVideoIdAsWritten(url, parseQuery)
    else None
  }

  /** `get_url_video_id` returning the validated eleven characters. */
  function UrlVideoId(url: string, parseQuery: string -> Option<seq<(string, string)>>): (r: Option<string>)
    ensures r.Some? ==> ValidateId(r.value)
  {
    match UrlCandidate(url, parseQuery)
    case None => None
    case Some(id) => TakeValidPrefix(id)
  }

  /**
   * `get_video_id`, corrected: whatever it returns is a valid identifier,
   * and it succeeds exactly where the code as written succeeds.
   */
  function GetVideoId(url: string, parseQuery: string -> Option<seq<(string, string)>>): (r: Option<string>)
    ensures r.Some? ==> ValidateId(r.value)
    ensures r.Some? <==> GetVideoIdAsWritten(url, parseQuery).Some?
  {
    if ValidateId(url) then Some(url)
    else if IsHttpUrl(Trim(url)) then UrlVideoId(url, parseQuery)
    else None
  }

  /** The two versions return the same bare identifier, and the corrected one cuts a URL's candidate to eleven characters. */
  lemma CorrectionOnlyTruncates(url: string, parseQuery: string -> Option<seq<(string, string)>>)
    ensures var w := GetVideoIdAsWritten(url, parseQuery);
      w.Some? ==> (|w.value| >= ID_LENGTH &&
        GetVideoId(url, parseQuery) == Some(if ValidateId(url) then url else w.value[..ID_LENGTH]))
  {
    var w := GetVideoIdAsWritten(url, parseQuery);
    if w.Some? && !ValidateId(url) {
      var id := UrlCandidate(url, parseQuery).value;
      assert |Trim(SubstringOf(id, 0, ID_LENGTH))| == ID_LENGTH;
    }
  }

  // ---------------------------------------------------------------------
  // The cases of tests/regex.rs
  // ---------------------------------------------------------------------

  /** A valid bare identifier is returned unchanged, untrimmed. */
  lemma BareIdUnchanged(id: string, parseQuery: string -> Option<seq<(string, string)>>)
    requires ValidateId(id)
    ensures GetVideoId(id, parseQuery) == Some(id)
  {
  }

  /** A ten-character identifier is rejected. */
  lemma TenCharIdRejected(parseQuery: string -> Option<seq<(string, string)>>)
    ensures GetVideoId("FZ8BxU3BYc", parseQuery) == None
  {
    NonUrlRejected("FZ8BxU3BYc", parseQuery);
  }

  /** Text without surrounding whitespace, of the wrong length and not starting with `h`, yields nothing. */
  lemma NonUrlRejected(s: string, parseQuery: string -> Option<seq<(string, string)>>)
    requires |s| >= 1 && !IsWhitespace(s[0]) && !IsWhitespace(s[|s| - 1])
    requires |s| != ID_LENGTH && s[0] != 'h'
    ensures GetVideoId(s, parseQuery) == None
  {
    TrimUnchanged(s);
    NotHttpUrl(s);
  }

  /** Text that does not start with `h` is not an HTTP URL. */
  lemma NotHttpUrl(s: string)
    requires |s| >= 1 && s[0] != 'h'
    ensures !IsHttpUrl(s)
  {
    DifferentHead(s, "http://");
    DifferentHead(s, "https://");
  }

  /** A text whose first character differs from the prefix's does not start with it. */
  lemma DifferentHead(s: string, prefix: string)
    requires |s| >= 1 && |prefix| >= 1 && s[0] != prefix[0]
    ensures !StartsWith(s, prefix)
  {
    if |prefix| <= |s| {
      assert s[..|prefix|][0] == s[0];
    }
  }

  /** Watch URLs: the identifier comes from the decoded `v` query parameter. */
  lemma WatchUrlId(url: string, query: seq<(string, string)>, parseQuery: string -> Option<seq<(string, string)>>)
    requires IsHttpUrl(Trim(url)) && !ValidateId(url)
    requires parseQuery(Trim(url)) == Some(query)
    requires |query| >= 1 && query[0] == ("v", "FZ8BxMU3BYc")
    ensures GetVideoId(url, parseQuery) == Some("FZ8BxMU3BYc")
  {
    WatchIdValid();
    VParamId(url, query, "FZ8BxMU3BYc", parseQuery);
  }

  lemma WatchIdValid()
    ensures ValidateId("FZ8BxMU3BYc") && |"FZ8BxMU3BYc"| == ID_LENGTH
  {
    TrimUnchanged("FZ8BxMU3BYc");
  }

  /** A URL whose first query pair is `v` with a valid eleven-character value yields that value. */
  lemma VParamId(url: string, query: seq<(string, string)>, id: string, parseQuery: string -> Option<seq<(string, string)>>)
    requires IsHttpUrl(Trim(url)) && !ValidateId(url)
    requires parseQuery(Trim(url)) == Some(query)
    requires |query| >= 1 && query[0] == ("v", id)
    requires ValidateId(id) && |id| == ID_LENGTH
    ensures GetVideoId(url, parseQuery) == Some(id)
  {
    VParamCandidate(url, query, id, parseQuery);
    ValidIdKept(id);
    assert UrlVideoId(url, parseQuery) == Some(id);
  }

  lemma VParamCandidate(url: string, query: seq<(string, string)>, id: string, parseQuery: string -> Option<seq<(string, string)>>)
    requires parseQuery(Trim(url)) == Some(query)
    requires |query| >= 1 && query[0] == ("v", id)
    ensures UrlCandidate(url, parseQuery) == Some(id)
  {
    assert FirstValue(query, "v") == Some(id);
  }

  /** A valid eleven-character identifier passes the filter whole. */
  lemma ValidIdKept(id: string)
    requires ValidateId(id) && |id| == ID_LENGTH
    ensures TakeValidPrefix(id) == Some(id)
  {
    WholeSubstring(id);
  }

  lemma WholeSubstring(id: string)
    requires |id| == ID_LENGTH
    ensures SubstringOf(id, 0, ID_LENGTH) == id
  {
    assert id[0..|id|] == id;
  }

  // ---------------------------------------------------------------------
  // Matching the path regex on concrete URL shapes
  // ---------------------------------------------------------------------

  /** An identifier-shaped text at the end of `s` is captured whole. */
  lemma CaptureWhole(pre: string, id: string)
    requires |id| >= 1 && forall k :: 0 <= k < |id| ==> IsIdChar(id[k])
    ensures CaptureAt(pre + id, |pre|) == Some(id)
  {
    var s := pre + id;
    assert s[|pre|] == id[0];
    var j := IdRunEnd(s, |pre|);
    assert j == |s|;
    assert s[|pre|..j] == id;
  }

  lemma OccursAtChar(s: string, needle: string, i: nat, k: nat)
    requires OccursAt(s, needle, i) && k < |needle|
    ensures s[i + k] == needle[k]
  {
    assert s[i..i + |needle|][k] == s[i + k];
  }

  lemma NotOccursAtChar(s: string, needle: string, i: nat, k: nat)
    requires k < |needle| && i + k < |s| && s[i + k] != needle[k]
    ensures !OccursAt(s, needle, i)
  {
    if OccursAt(s, needle, i) {
      OccursAtChar(s, needle, i, k);
    }
  }

  /** No match starts at positions whose character is not where a host could begin. */
  lemma NoHostAt(s: string, d: nat)
    requires d <= |s| && (d == |s| || s[d] != 'y')
    ensures PathIdAt(s, d) == None
  {
    if d < |s| {
      NotOccursAtChar(s, "youtube.com/", d, 0);
      NotOccursAtChar(s, "youtube-nocookie.com/", d, 0);
      NotOccursAtChar(s, "youtu.be/", d, 0);
    }
  }

  /** Past a `youtu.be/` host, the identifier is the capture right after it. */
  lemma ShortLinkHost(s: string, d: nat)
    requires OccursAt(s, "youtu.be/", d)
    ensures PathIdAt(s, d) == CaptureAt(s, d + 9)
  {
    OccursAtChar(s, "youtu.be/", d, 5);
    NotOccursAtChar(s, "youtube.com/", d, 5);
    NotOccursAtChar(s, "youtube-nocookie.com/", d, 5);
  }

  /** A match starting at a non-word character inside a line tries the host right after it. */
  lemma NonWordStart(s: string, p: nat)
    requires 0 < p < |s| && s[p - 1] != '\n' && !IsWordChar(s[p])
    ensures MatchAt(s, p) == PathIdAt(s, p + 1)
  {
  }

  /** No match starts at a word character inside a line. */
  lemma WordNoStart(s: string, p: nat)
    requires 0 < p < |s| && s[p - 1] != '\n' && IsWordChar(s[p])
    ensures MatchAt(s, p) == None
  {
  }

  /** `PathId` moves past positions where no match starts. */
  lemma {:induction false} PathIdSkip(s: string, from: nat, k: nat)
    requires from <= k <= |s|
    requires forall p :: from <= p < k ==> MatchAt(s, p).None?
    ensures PathId(s, from) == PathId(s, k)
    decreases k - from
  {
    if from < k {
      PathIdStep(s, from);
      PathIdSkip(s, from + 1, k);
    }
  }

  /** Nothing matches inside `https://`, since no host starts within it. */
  lemma HttpsSchemeNoMatch(s: string)
    requires StartsWith(s, "https://") && |s| > 8
    ensures forall p :: 0 <= p < 7 ==> MatchAt(s, p).None?
  {
    forall p | 0 <= p < 7
      ensures MatchAt(s, p).None?
    {
      assert s[..8][p] == s[p] && s[..8][p + 1] == s[p + 1];
      NoHostAt(s, p);
      NoHostAt(s, p + 1);
    }
  }

  lemma ShortLinkShape(pre: string, id: string)
    requires pre == "https://youtu.be/"
    ensures StartsWith(pre + id, "https://") && |pre + id| > 8
    ensures OccursAt(pre + id, "youtu.be/", 8)
    ensures (pre + id)[6] == '/' && (pre + id)[7] == '/'
  {
    var s := pre + id;
    assert s[..8] == pre[..8];
    assert s[8..17] == pre[8..17];
  }

  /** A `https://youtu.be/` link: the identifier is the capture after the host. */
  lemma ShortLinkMatch(s: string, id: string)
    requires StartsWith(s, "https://") && |s| > 8 && s[6] == '/' && s[7] == '/'
    requires OccursAt(s, "youtu.be/", 8) && CaptureAt(s, 17) == Some(id)
    ensures PathId(s, 0) == Some(id)
  {
    HttpsSchemeNoMatch(s);
    PathIdSkip(s, 0, 7);
    ShortLinkHost(s, 8);
    NonWordStart(s, 7);
  }

  /** `https://youtu.be/<id>` yields the identifier through the path regex. */
  lemma ShortLinkPathId(id: string)
    requires |id| >= 1 && forall k :: 0 <= k < |id| ==> IsIdChar(id[k])
    ensures PathId("https://youtu.be/" + id, 0) == Some(id)
  {
    ShortLinkShape("https://youtu.be/", id);
    CaptureWhole("https://youtu.be/", id);
    ShortLinkMatch("https://youtu.be/" + id, id);
  }

  /** No `[?&]v=` marker in a tail made of a fixed keyword and an identifier. */
  lemma NoVParamIn(pre: string, kw: string, id: string, lo: nat, hi: nat)
    requires |pre| - |kw| == lo && |kw| <= |pre| && pre[lo..] == kw
    requires forall k :: 0 <= k < |kw| ==> kw[k] != '?' && kw[k] != '&'
    requires forall k :: 0 <= k < |id| ==> IsIdChar(id[k])
    requires lo <= hi <= |pre + id|
    ensures LastVParam(pre + id, lo, hi) == None
  {
    var s := pre + id;
    forall q | lo <= q < hi
      ensures !VParamAt(s, q)
    {
      if q < |pre| {
        assert s[q] == pre[q] == pre[lo..][q - lo];
      } else {
        assert s[q] == id[q - |pre|];
      }
    }
  }

  /** After `youtube.com/`, a `shorts/` or `embed/` keyword with no `v` marker on the line selects the capture after it. */
  lemma KeywordAfterYoutube(s: string, e: nat, kw: string, id: string)
    requires kw == "shorts/" || kw == "embed/"
    requires e <= |s| && OccursAt(s, kw, e)
    requires LastVParam(s, e, NextChar(s, e, '\n')) == None
    requires CaptureAt(s, e + |kw|) == Some(id)
    ensures AfterYoutube(s, e) == Some(id)
  {
    OccursAtChar(s, kw, e, 0);
    NotOccursAtChar(s, "v/", e, 0);
    if kw == "embed/" {
      NotOccursAtChar(s, "shorts/", e, 0);
    }
  }

  /** A `https://www.youtube.com/` link: no match starts before the `.` ahead of the host. */
  lemma WwwYoutubeMatch(s: string, id: string)
    requires StartsWith(s, "https://") && |s| > 24
    requires s[6] == '/' && s[7] == '/' && s[8] == 'w' && s[9] == 'w' && s[10] == 'w' && s[11] == '.'
    requires OccursAt(s, "youtube.com/", 12)
    requires AfterYoutube(s, 24) == Some(id)
    ensures PathId(s, 0) == Some(id)
  {
    HttpsSchemeNoMatch(s);
    WwwPrefixNoMatch(s);
    PathIdSkip(s, 0, 11);
    NonWordStart(s, 11);
    YoutubeHost(s, 12);
    PathIdHere(s, 11);
  }

  /** Past a scheme where no match starts, none starts in `//www` either. */
  lemma WwwPrefixNoMatch(s: string)
    requires |s| > 12 && s[6] == '/' && s[7] == '/' && s[8] == 'w' && s[9] == 'w' && s[10] == 'w'
    requires forall p :: 0 <= p < 7 ==> MatchAt(s, p).None?
    ensures forall p :: 0 <= p < 11 ==> MatchAt(s, p).None?
  {
    forall p | 7 <= p < 11
      ensures MatchAt(s, p).None?
    {
      if p == 7 {
        NonWordStart(s, 7);
        NoHostAt(s, 8);
      } else {
        WordNoStart(s, p);
      }
    }
  }

  lemma YoutubeHost(s: string, d: nat)
    requires OccursAt(s, "youtube.com/", d)
    ensures PathIdAt(s, d) == AfterYoutube(s, d + 12)
  {
  }

  lemma PathIdStep(s: string, k: nat)
    requires k < |s| && MatchAt(s, k).None?
    ensures PathId(s, k) == PathId(s, k + 1)
  {
  }

  lemma PathIdHere(s: string, k: nat)
    requires k < |s| && MatchAt(s, k).Some?
    ensures PathId(s, k) == MatchAt(s, k)
  {
  }

  lemma WwwYoutubeShape(host: string, kw: string, id: string)
    requires host == "https://www.youtube.com/"
    requires |id| >= 1
    ensures var s := host + kw + id;
      StartsWith(s, "https://") && |s| > 24 + |kw| &&
      s[6] == '/' && s[7] == '/' && s[8] == 'w' && s[9] == 'w' && s[10] == 'w' && s[11] == '.' &&
      OccursAt(s, "youtube.com/", 12) && OccursAt(s, kw, 24)
  {
    var s := host + kw + id;
    WwwYoutubeHost(host);
    assert s[..24] == host;
    assert s[..8] == host[..8];
    assert s[12..24] == host[12..24];
    assert s[24..24 + |kw|] == kw;
  }

  lemma WwwYoutubeHost(host: string)
    requires host == "https://www.youtube.com/"
    ensures |host| == 24 && host[..8] == "https://" && host[12..24] == "youtube.com/"
    ensures host[6] == '/' && host[7] == '/' && host[8] == 'w' && host[9] == 'w' && host[10] == 'w' && host[11] == '.'
  {
    assert host == "https://" + "www." + "youtube.com/";
    assert ("https://" + "www." + "youtube.com/")[..8] == "https://";
    assert ("https://" + "www." + "youtube.com/")[12..24] == "youtube.com/";
  }

  /** `https://www.youtube.com/<kw><id>`, with no `?` or `&` after the host. */
  lemma WwwYoutubePathId(kw: string, id: string)
    requires kw == "shorts/" || kw == "embed/"
    requires |id| >= 1 && forall k :: 0 <= k < |id| ==> IsIdChar(id[k])
    ensures PathId("https://www.youtube.com/" + kw + id, 0) == Some(id)
  {
    var host := "https://www.youtube.com/";
    WwwYoutubeShape(host, kw, id);
    WwwYoutubeAfterHost(host, kw, id);
    WwwYoutubeMatch(host + kw + id, id);
  }

  /** After the host of `https://www.youtube.com/<kw><id>`, the keyword alternative captures the identifier. */
  lemma WwwYoutubeAfterHost(host: string, kw: string, id: string)
    requires host == "https://www.youtube.com/"
    requires kw == "shorts/" || kw == "embed/"
    requires |id| >= 1 && forall k :: 0 <= k < |id| ==> IsIdChar(id[k])
    ensures AfterYoutube(host + kw + id, 24) == Some(id)
  {
    WwwYoutubeShape(host, kw, id);
    KeywordHasNoMarker(kw);
    var pre := host + kw;
    var s := pre + id;
    assert pre[24..] == kw;
    NoVParamIn(pre, kw, id, 24, NextChar(s, 24, '\n'));
    CaptureWhole(pre, id);
    KeywordAfterYoutube(s, 24, kw, id);
  }

  lemma KeywordHasNoMarker(kw: string)
    requires kw == "shorts/" || kw == "embed/"
    ensures forall k :: 0 <= k < |kw| ==> kw[k] != '?' && kw[k] != '&'
  {
  }

  /** Every character from position `i` on is an identifier character, checked one at a time. */
  predicate IdCharsFrom(s: string, i: nat)
    decreases |s| - i
  {
    i >= |s| || (IsIdChar(s[i]) && IdCharsFrom(s, i + 1))
  }

  lemma {:induction false} IdCharsFromSpec(s: string, i: nat)
    requires IdCharsFrom(s, i)
    ensures forall k :: i <= k < |s| ==> IsIdChar(s[k])
    decreases |s| - i
  {
    if i < |s| {
      IdCharsFromSpec(s, i + 1);
    }
  }

  /** Text made of identifier characters has nothing to trim. */
  lemma IdCharsUntrimmed(t: string)
    requires forall k :: 0 <= k < |t| ==> IsIdChar(t[k])
    ensures Trim(t) == t
  {
    if t != [] {
      assert IsIdChar(t[0]) && IsIdChar(t[|t| - 1]);
      TrimUnchanged(t);
    }
  }

  /** `validate_id` accepts exactly the eleven-character texts of identifier characters. */
  lemma ValidIdChars(t: string)
    requires forall k :: 0 <= k < |t| ==> IsIdChar(t[k])
    ensures ValidateId(t) <==> |t| == ID_LENGTH
  {
    IdCharsUntrimmed(t);
  }

  /** The first eleven characters, as `substring(0, 11)` takes them. */
  lemma FirstElevenChars(id: string)
    ensures |id| <= ID_LENGTH ==> SubstringOf(id, 0, ID_LENGTH) == id
    ensures |id| >= ID_LENGTH ==> SubstringOf(id, 0, ID_LENGTH) == id[..ID_LENGTH]
  {
  }

  /** An `https://` URL longer than an identifier, with no space at its end. */
  lemma HttpsUrlShape(url: string)
    requires StartsWith(url, "https://") && |url| > ID_LENGTH && !IsWhitespace(url[|url| - 1])
    ensures Trim(url) == url && IsHttpUrl(url) && !ValidateId(url)
  {
    assert url[0] == url[..8][0];
    TrimUnchanged(url);
  }

  /** A URL that parses without a `v` parameter takes its identifier from the path regex. */
  lemma PathRoute(url: string, id: string, parseQuery: string -> Option<seq<(string, string)>>)
    requires Trim(url) == url && IsHttpUrl(url) && !ValidateId(url)
    requires parseQuery(url) == Some([]) && PathId(url, 0) == Some(id)
    ensures GetVideoIdAsWritten(url, parseQuery) == KeepIfPrefixValid(id)
    ensures GetVideoId(url, parseQuery) == TakeValidPrefix(id)
  {
  }

  /** The URL shapes of the tests: `https://` followed by a host part `kw` and the identifier. */
  lemma TestUrlShape(url: string, kw: string, id: string)
    requires url == "https://" + kw + id
    requires kw == "youtu.be/" || kw == "www.youtube.com/shorts/" || kw == "www.youtube.com/embed/"
    requires |id| >= 1 && forall k :: 0 <= k < |id| ==> IsIdChar(id[k])
    ensures Trim(url) == url && IsHttpUrl(url) && !ValidateId(url)
  {
    assert url[..8] == "https://";
    assert url[|url| - 1] == id[|id| - 1];
    HttpsUrlShape(url);
  }

  /** A URL whose path regex captures a valid identifier yields it under both versions. */
  lemma ValidPathId(url: string, id: string, parseQuery: string -> Option<seq<(string, string)>>)
    requires Trim(url) == url && IsHttpUrl(url) && !ValidateId(url)
    requires parseQuery(url) == Some([]) && PathId(url, 0) == Some(id)
    requires |id| == ID_LENGTH
    ensures GetVideoId(url, parseQuery) == Some(id)
    ensures GetVideoIdAsWritten(url, parseQuery) == Some(id)
  {
    PathRoute(url, id, parseQuery);
    FirstElevenChars(id);
    ValidIdChars(id);
  }

  /**
   * The code as written hands back an over-long identifier: when the path
   * regex captures more than eleven identifier characters, the filter
   * checks only the first eleven and the whole capture is returned, which
   * `validate_id` itself rejects. The corrected version returns the first
   * eleven.
   */
  lemma OverlongIdReturned(url: string, id: string, parseQuery: string -> Option<seq<(string, string)>>)
    requires Trim(url) == url && IsHttpUrl(url) && !ValidateId(url)
    requires parseQuery(url) == Some([]) && PathId(url, 0) == Some(id)
    requires |id| > ID_LENGTH
    ensures GetVideoIdAsWritten(url, parseQuery) == Some(id)
    ensures !ValidateId(id)
    ensures GetVideoId(url, parseQuery) == Some(id[..ID_LENGTH])
  {
    PathRoute(url, id, parseQuery);
    FirstElevenChars(id);
    var head := id[..ID_LENGTH];
    assert forall k :: 0 <= k < |head| ==> head[k] == id[k];
    ValidIdChars(head);
    ValidIdChars(id);
  }

  /** The fourteen characters `FZ8BxMU3BYcXYZ` are all identifier characters. */
  lemma OverlongIdChars(id: string)
    requires id == "FZ8BxMU3BYcXYZ"
    ensures |id| > ID_LENGTH && forall k :: 0 <= k < |id| ==> IsIdChar(id[k])
  {
    assert IdCharsFrom("FZ8BxMU3BYcXYZ", 0);
    IdCharsFromSpec(id, 0);
  }

  /** `https://youtu.be/FZ8BxMU3BYcXYZ` is such a URL ... */
  lemma OverlongUrlShape(url: string)
    requires url == "https://youtu.be/FZ8BxMU3BYcXYZ"
    ensures Trim(url) == url && IsHttpUrl(url) && !ValidateId(url)
  {
    var id := "FZ8BxMU3BYcXYZ";
    OverlongIdChars(id);
    assert url == "https://" + "youtu.be/" + id;
    TestUrlShape(url, "youtu.be/", id);
  }

  /** ... whose path regex captures all fourteen characters after the host. */
  lemma OverlongUrlPathId(url: string)
    requires url == "https://youtu.be/FZ8BxMU3BYcXYZ"
    ensures PathId(url, 0) == Some("FZ8BxMU3BYcXYZ")
  {
    var id := "FZ8BxMU3BYcXYZ";
    OverlongIdChars(id);
    assert url == "https://youtu.be/" + id;
    ShortLinkPathId(id);
  }

  /**
   * The short link `https://youtu.be/FZ8BxMU3BYcXYZ` (no query) comes back
   * as the fourteen-character `FZ8BxMU3BYcXYZ`, which is not a valid id; the
   * corrected version gives `FZ8BxMU3BYc`.
   */
  lemma OverlongShortLink(parseQuery: string -> Option<seq<(string, string)>>)
    requires parseQuery("https://youtu.be/FZ8BxMU3BYcXYZ") == Some([])
    ensures GetVideoIdAsWritten("https://youtu.be/FZ8BxMU3BYcXYZ", parseQuery) == Some("FZ8BxMU3BYcXYZ")
    ensures !ValidateId("FZ8BxMU3BYcXYZ")
    ensures GetVideoId("https://youtu.be/FZ8BxMU3BYcXYZ", parseQuery) == Some("FZ8BxMU3BYc")
  {
    var url := "https://youtu.be/FZ8BxMU3BYcXYZ";
    OverlongUrlShape(url);
    OverlongUrlPathId(url);
    OverlongIdChars("FZ8BxMU3BYcXYZ");
    OverlongIdReturned(url, "FZ8BxMU3BYcXYZ", parseQuery);
    assert "FZ8BxMU3BYcXYZ"[..ID_LENGTH] == "FZ8BxMU3BYc";
  }
}
