/**
 * The part of `url::Url` that the storyboard and embed builders use: a
 * parsed URL kept as its serialisation split around the query, and
 * `query_pairs_mut().append_pair(key, value)`. Parsing itself and the
 * `application/x-www-form-urlencoded` byte encoding are left to the
 * callers, which receive them as function parameters.
 */
module UrlForm {
  import opened Wrappers
  import opened Text

  /**
   * A parsed URL: its serialisation up to the query, the query (None when
   * the URL has no `?`), and the fragment (None when it has no `#`).
   */
  datatype ParsedUrl = ParsedUrl(beforeQuery: string, query: Option<string>, fragment: Option<string>)

  /** `Url::as_str` */
  function Serialize(u: ParsedUrl): string {
    u.beforeQuery
    + (if u.query.Some? then "?" + u.query.value else "")
    + (if u.fragment.Some? then "#" + u.fragment.value else "")
  }

  /** One `key=value` pair, both halves form-encoded by `encode`. */
  function Pair(key: string, value: string, encode: string -> string): string {
    encode(key) + "=" + encode(value)
  }

  /**
   * The query after one more pair: a missing query starts at the pair, an
   * empty one (a bare `?`) takes it without separator, any other gets `&`
   * and the pair.
   */
  function Extend(query: Option<string>, pair: string): (q: string)
    ensures query.None? || query.value == "" ==> q == pair
    ensures query.Some? && query.value != "" ==> q == query.value + "&" + pair
  {
    if query.None? || query.value == "" then pair else query.value + "&" + pair
  }

  /** `query_pairs_mut().append_pair(..)`: the fragment is set aside and restored, the rest is kept. */
  function AppendPair(u: ParsedUrl, pair: string): (r: ParsedUrl)
    ensures r.beforeQuery == u.beforeQuery && r.fragment == u.fragment
    ensures r.query == Some(Extend(u.query, pair))
  {
    u.(query := Some(Extend(u.query, pair)))
  }

  /** Several `append_pair` calls, first to last. */
  function AppendPairs(u: ParsedUrl, pairs: seq<string>): ParsedUrl {
    if pairs == [] then u else AppendPair(AppendPairs(u, pairs[..|pairs| - 1]), pairs[|pairs| - 1])
  }

  /**
   * The appended pairs (never empty, as each holds `=`) end up, in order
   * and `&`-separated, after whatever query the URL had; nothing else of
   * the URL changes.
   */
  lemma {:induction false} AppendPairsQuery(u: ParsedUrl, pairs: seq<string>)
    requires pairs != [] && forall k :: 0 <= k < |pairs| ==> pairs[k] != ""
    ensures AppendPairs(u, pairs) == u.(query := Some(Extend(u.query, Join(pairs, "&"))))
    decreases |pairs|
  {
    var init := pairs[..|pairs| - 1];
    var last := pairs[|pairs| - 1];
    if init == [] {
      assert pairs == [last];
    } else {
      AppendPairsQuery(u, init);
      JoinSnoc(init, last, "&");
      JoinNonEmpty(init, "&");
      assert pairs == init + [last];
      var j := Join(init, "&");
      assert AppendPairs(u, pairs) == AppendPair(u.(query := Some(Extend(u.query, j))), last);
      assert Extend(Some(Extend(u.query, j)), last) == Extend(u.query, j + "&" + last);
    }
  }

  lemma {:induction false} JoinNonEmpty(parts: seq<string>, sep: string)
    requires parts != [] && parts[0] != ""
    ensures Join(parts, sep) != ""
  {
    if |parts| > 1 {
      assert Join(parts, sep) == parts[0] + sep + Join(parts[1..], sep);
    }
  }

  /** Joining one more piece appends the separator and the piece. */
  lemma {:induction false} JoinSnoc(parts: seq<string>, last: string, sep: string)
    requires parts != []
    ensures Join(parts + [last], sep) == Join(parts, sep) + sep + last
    decreases |parts|
  {
    if |parts| == 1 {
      assert parts + [last] == [parts[0], last];
    } else {
      assert (parts + [last])[1..] == parts[1..] + [last];
      JoinSnoc(parts[1..], last, sep);
    }
  }
}
