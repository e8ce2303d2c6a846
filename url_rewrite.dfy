/**
 * Download-URL rewriting (`set_download_url`, `decipher` and `ncode` in
 * src/utils.rs). The JavaScript engine, the query-string and URL parsers,
 * URL serialisation and percent-decoding are outside the model: they are
 * the parameters bundled in `Env`. The two caches the caller threads
 * through every format are the fields of `UrlCaches`.
 */
module UrlRewrite {
  import opened Wrappers
  import opened Text
  import opened Formats

  /** The query pairs of a URL, in order. */
  type Query = seq<(string, string)>

  /** A value `serde_qs` produces: a string, or a nested structure. */
  datatype QsValue = QsStr(s: string) | QsNested

  /** The result of evaluating a script: a string the engine can turn into Rust text, one it cannot, or another value. */
  datatype JsValue = JsText(s: string) | JsBadText | JsOther

  /** A parsed `url::Url`: everything but the query, and the decoded query pairs. */
  datatype Url = Url(rest: string, query: Query)

  /**
   * The library calls the rewriting relies on:
   * `parseQs` is `serde_qs::from_str` (None on failure);
   * `percentDecode` is `urlencoding::decode` (None on invalid UTF-8);
   * `parseUrl` is `url::Url::parse` and `render` is its `to_string`;
   * `load(script)` says whether evaluating the script in a fresh engine
   * succeeds, and `eval(script, expr)` is the value of `expr` in an engine
   * that has loaded `script`.
   */
  datatype Env = Env(
    parseQs: string -> Option<map<string, QsValue>>,
    percentDecode: string -> Option<string>,
    parseUrl: string -> Option<Url>,
    render: Url -> string,
    load: string -> bool,
    eval: (string, string) -> Option<JsValue>)

  /** `args.get(key).and_then(Value::as_str)` */
  function StrArg(args: map<string, QsValue>, key: string): Option<string> {
    if key in args && args[key].QsStr? then Some(args[key].s) else None
  }

  /** The call expression `name("arg")` handed to the engine. */
  function CallExpr(name: string, arg: string): string {
    name + "(\"" + arg + "\")"
  }

  // ---------------------------------------------------------------------
  // Query rewriting
  // ---------------------------------------------------------------------

  predicate HasParam(q: Query, name: string) {
    exists i | 0 <= i < |q| :: q[i].0 == name
  }

  /** Every pair called `name` gets `value`; the others and the order stay. */
  function ReplaceParam(q: Query, name: string, value: string): (r: Query)
    ensures |r| == |q|
    ensures forall i :: 0 <= i < |q| ==> r[i].0 == q[i].0
    ensures forall i :: 0 <= i < |q| ==> r[i].1 == (if q[i].0 == name then value else q[i].1)
    ensures !HasParam(q, name) ==> r == q
  {
    if q == [] then []
    else [if q[0].0 == name then (name, value) else q[0]] + ReplaceParam(q[1..], name, value)
  }

  /**
   * `name` ends with `value`, appended when it was missing: every pair of
   * that name holds the value, the other pairs keep their place, and at
   * most one pair is added.
   */
  function SetParam(q: Query, name: string, value: string): (r: Query)
    ensures |r| == (if HasParam(q, name) then |q| else |q| + 1)
    ensures forall i :: 0 <= i < |r| && r[i].0 == name ==> r[i].1 == value
    ensures forall i :: 0 <= i < |q| && q[i].0 != name ==> r[i] == q[i]
  {
    if HasParam(q, name) then ReplaceParam(q, name, value) else q + [(name, value)]
  }

  /**
   * After setting, the parameter is present, every pair of that name holds
   * the value, the other pairs are unchanged, and at most one pair is added
   * at the end.
   */
  lemma SetParamSpec(q: Query, name: string, value: string)
    ensures var r := SetParam(q, name, value);
      HasParam(r, name) &&
      (forall i :: 0 <= i < |r| && r[i].0 == name ==> r[i].1 == value) &&
      (forall i :: 0 <= i < |q| && q[i].0 != name ==> r[i] == q[i]) &&
      |r| == (if HasParam(q, name) then |q| else |q| + 1)
  {
    var r := SetParam(q, name, value);
    if HasParam(q, name) {
      var k :| 0 <= k < |q| && q[k].0 == name;
      assert r[k].0 == name;
    } else {
      assert r[|q|].0 == name;
    }
  }

  /** Setting a parameter twice is setting it once. */
  lemma SetParamIdempotent(q: Query, name: string, value: string)
    ensures SetParam(SetParam(q, name, value), name, value) == SetParam(q, name, value)
  {
    SetParamSpec(q, name, value);
  }

  // ---------------------------------------------------------------------
  // decipher
  // ---------------------------------------------------------------------

  /** What `decipher` returns and what the signature cache then holds; None when `serde_qs` fails and the unwrap panics. */
  datatype Deciphered = Deciphered(url: string, cache: Option<string>)

  /**
   * `decipher(url, (name, script), cache)`. The cache remembers the script
   * text whose engine was last built; an engine is only built (and the
   * cache only replaced) when the cached text differs. It panics only when
   * the query string does not parse, and the cache changes only to a
   * script the engine loaded.
   */
  function Decipher(url: string, name: string, script: string, cache: Option<string>, env: Env): (r: Option<Deciphered>)
    ensures r.None? <==> env.parseQs(url).None?
    ensures r.Some? ==> r.value.cache == cache || r.value.cache == Some(script)
    ensures r.Some? && r.value.cache != cache ==> env.load(script)
  {
    match env.parseQs(url)
    case None => None
    case Some(args) =>
      var fallback := StrArg(args, "url").UnwrapOr(url);
      if "s" !in args || script == "" then Some(Deciphered(fallback, cache))
      else if cache != Some(script) && !env.load(script) then Some(Deciphered(fallback, cache))
      else
        var cache' := Some(script);
        match env.eval(script, CallExpr(name, StrArg(args, "s").UnwrapOr("")))
        case None => Some(Deciphered(fallback, cache'))
        case Some(v) =>
          var signature := if v.JsText? then v.s else fallback;
          match StrArg(args, "url")
          case None => Some(Deciphered(fallback, cache'))
          case Some(target) =>
            match env.parseUrl(target)
            case None => Some(Deciphered(fallback, cache'))
            case Some(u) =>
              var param := StrArg(args, "sp").UnwrapOr("signature");
              Some(Deciphered(env.render(u.(query := SetParam(u.query, param, signature))), cache'))
  }

  /** Without an `s` argument or a script, `decipher` returns the `url` argument (or its input) and leaves the cache. */
  lemma DecipherWithoutSignature(url: string, name: string, script: string, cache: Option<string>, env: Env)
    requires env.parseQs(url).Some?
    requires "s" !in env.parseQs(url).value || script == ""
    ensures Decipher(url, name, script, cache, env) ==
      Some(Deciphered(StrArg(env.parseQs(url).value, "url").UnwrapOr(url), cache))
  {
  }

  /**
   * When everything succeeds, the result is the `url` argument with the
   * `sp` parameter (default `signature`) set to the engine's answer, and
   * the cache holds the script.
   */
  lemma DecipherSetsSignature(url: string, name: string, script: string, cache: Option<string>, env: Env,
                              args: map<string, QsValue>, target: string, u: Url, answer: string)
    requires env.parseQs(url) == Some(args) && "s" in args && script != ""
    requires cache == Some(script) || env.load(script)
    requires env.eval(script, CallExpr(name, StrArg(args, "s").UnwrapOr(""))) == Some(JsText(answer))
    requires StrArg(args, "url") == Some(target) && env.parseUrl(target) == Some(u)
    ensures var q := SetParam(u.query, StrArg(args, "sp").UnwrapOr("signature"), answer);
      Decipher(url, name, script, cache, env) == Some(Deciphered(env.render(u.(query := q)), Some(script)))
  {
  }

  /** A cache hit never builds an engine: the result does not depend on whether the script would load. */
  lemma DecipherCache(url: string, name: string, script: string, cache: Option<string>, env: Env, other: string -> bool)
    requires Decipher(url, name, script, cache, env).Some?
    ensures cache == Some(script) ==>
      Decipher(url, name, script, cache, env) == Decipher(url, name, script, cache, env.(load := other))
  {
  }

  // ---------------------------------------------------------------------
  // ncode
  // ---------------------------------------------------------------------

  /** `update_url_with_n`: replaces every `n` pair, never adds one; an unparsable URL is returned as is. */
  function UpdateUrlWithN(url: string, n: string, env: Env): (r: string)
    ensures env.parseUrl(url).None? ==> r == url
    ensures env.parseUrl(url).Some? && !HasParam(env.parseUrl(url).value.query, "n") ==>
      r == env.render(env.parseUrl(url).value)
  {
    match env.parseUrl(url)
    case None => url
    case Some(u) => env.render(u.(query := ReplaceParam(u.query, "n", n)))
  }

  /** The `n` argument of a URL, read from its percent-decoded text. */
  function NArg(url: string, env: Env): Option<string> {
    var decoded := env.percentDecode(url).UnwrapOr(url);
    var args := env.parseQs(decoded).UnwrapOr(map[]);
    StrArg(args, "n")
  }

  /**
   * `ncode(url, (name, script), cache)`: the new URL and the new n-transform
   * cache. Without an `n` argument or a script nothing changes; the cache
   * keeps every entry; a URL that changes has its `n` replaced by the
   * cached transform of its `n` value.
   */
  function Ncode(url: string, name: string, script: string, cache: map<string, string>, env: Env): (r: (string, map<string, string>))
    ensures NArg(url, env).None? || script == "" ==> r == (url, cache)
    ensures forall k :: k in cache ==> k in r.1 && r.1[k] == cache[k]
    ensures r.0 != url ==>
      NArg(url, env).Some? && NArg(url, env).value in r.1 && r.0 == UpdateUrlWithN(url, r.1[NArg(url, env).value], env)
  {
    match NArg(url, env)
    case None => (url, cache)
    case Some(n) =>
      if script == "" then (url, cache)
      else if n in cache then (UpdateUrlWithN(url, cache[n], env), cache)
      else if !env.load(script) then (url, cache)
      else
        match env.eval(script, CallExpr(name, n))
        case None => (url, cache)
        case Some(v) =>
          if v.JsOther? then (url, cache)
          else
            var result := if v.JsText? then v.s else "";
            (UpdateUrlWithN(url, result, env), cache[n := result])
  }

  /** A cached n value is reused without consulting the engine. */
  lemma NcodeCacheHit(url: string, name: string, script: string, cache: map<string, string>, env: Env,
                      otherLoad: string -> bool, otherEval: (string, string) -> Option<JsValue>)
    requires NArg(url, env).Some? && script != "" && NArg(url, env).value in cache
    ensures Ncode(url, name, script, cache, env) == (UpdateUrlWithN(url, cache[NArg(url, env).value], env), cache)
    ensures Ncode(url, name, script, cache, env) == Ncode(url, name, script, cache, env.(load := otherLoad, eval := otherEval))
  {
  }

  /** The cache only grows: every entry it had is kept with its value, and at most the URL's n value is added. */
  lemma NcodeCacheGrows(url: string, name: string, script: string, cache: map<string, string>, env: Env)
    ensures var c := Ncode(url, name, script, cache, env).1;
      (forall k :: k in cache ==> k in c && c[k] == cache[k]) &&
      (forall k :: k in c && k !in cache ==> Some(k) == NArg(url, env))
  {
  }

  /** Running `ncode` again with the cache it left behind gives the same URL. */
  lemma NcodeStable(url: string, name: string, script: string, cache: map<string, string>, env: Env)
    ensures var (first, c) := Ncode(url, name, script, cache, env);
      Ncode(url, name, script, c, env).0 == first
  {
  }

  // ---------------------------------------------------------------------
  // set_download_url with its caches
  // ---------------------------------------------------------------------

  /** `functions.get(i)`, or the empty pair. */
  function ScriptAt(functions: seq<(string, string)>, i: nat): (string, string) {
    if i < |functions| then functions[i] else ("", "")
  }

  /**
   * The URL `set_download_url` gives a format, and the caches after it;
   * None when `decipher` panics, which only a format without a URL can
   * reach. A format with a URL leaves the signature cache alone, and the
   * n-transform cache keeps every entry.
   */
  function DownloadUrl(format: StreamingDataFormat, functions: seq<(string, string)>,
                       nCache: map<string, string>, cipherCache: Option<string>, env: Env)
    : (r: Option<(string, map<string, string>, Option<string>)>)
    ensures r.None? ==> format.url.None?
    ensures r.Some? && format.url.Some? ==> r.value.2 == cipherCache
    ensures r.Some? ==> forall k :: k in nCache ==> k in r.value.1 && r.value.1[k] == nCache[k]
  {
    var decipherScript := ScriptAt(functions, 0);
    var nScript := ScriptAt(functions, 1);
    match format.url
    case Some(u) =>
      var (url, c) := Ncode(u, nScript.0, nScript.1, nCache, env);
      Some((url, c, cipherCache))
    case None =>
      var raw := format.signatureCipher.UnwrapOr(format.cipher.UnwrapOr(""));
      match Decipher(raw, decipherScript.0, decipherScript.1, cipherCache, env)
      case None => None
      case Some(d) =>
        var (url, c) := Ncode(d.url, nScript.0, nScript.1, nCache, env);
        Some((url, c, d.cache))
  }

  /**
   * The n-transform cache and the signature cache that `parse_video_formats`
   * keeps while it converts a list of formats.
   */
  class UrlCaches {
    var nTransform: map<string, string>
    var cipher: Option<string>

    constructor ()
      ensures nTransform == map[] && cipher == None
    {
      nTransform := map[];
      cipher := None;
    }

    /** `set_download_url`: gives the format its URL and updates both caches; None models the panic. */
    method SetDownloadUrl(format: StreamingDataFormat, functions: seq<(string, string)>, env: Env)
      returns (r: Option<(StreamingDataFormat, string)>)
      modifies this
      ensures match DownloadUrl(format, functions, old(nTransform), old(cipher), env)
        case None => r.None?
        case Some((url, n, c)) =>
          r == Some((format.(url := Some(url)), url)) && nTransform == n && cipher == c
    {
      var decipherScript := ScriptAt(functions, 0);
      var nScript := ScriptAt(functions, 1);
      var source: string;
      if format.url.Some? {
        source := format.url.value;
      } else {
        var raw := format.signatureCipher.UnwrapOr(format.cipher.UnwrapOr(""));
        var d := Decipher(raw, decipherScript.0, decipherScript.1, cipher, env);
        if d.None? {
          return None;
        }
        source := d.value.url;
        cipher := d.value.cache;
      }
      var (url, c) := Ncode(source, nScript.0, nScript.1, nTransform, env);
      nTransform := c;
      r := Some((format.(url := Some(url)), url));
    }
  }

  /**
   * `extract_functions` lists its entries by position, and `set_download_url`
   * reads the first as the signature script and the second as the n
   * script. When only the n script was found it is read as the signature
   * script, and the n parameter is left alone.
   */
  lemma LoneNScriptIsNotApplied(format: StreamingDataFormat, nEntry: (string, string),
                                      nCache: map<string, string>, cipherCache: Option<string>, env: Env)
    requires format.url.Some?
    ensures DownloadUrl(format, [nEntry], nCache, cipherCache, env) == Some((format.url.value, nCache, cipherCache))
  {
  }
}
