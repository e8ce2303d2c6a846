/**
 * The command line's output options (cli/src/args/output.rs): the
 * `OutputLevel` bit flags, their parser `OutputLevel::from_str`, and the
 * `OutputFormat` choice with its default.
 */
module OutputLevels {
  import opened Wrappers
  import opened Text

  /** `OutputLevel`: a `u16` of flags. */
  type Level = bv16

  const GENERAL: Level := 0x4
  const VIDEO_TRACK: Level := 0x8
  const AUDIO_TRACK: Level := 0x10
  const VERBOSE: Level := 0x100
  const VIDEO: Level := 0x80

  /** `OutputLevel::all()`: every declared flag. */
  const ALL: Level := GENERAL | VIDEO_TRACK | AUDIO_TRACK | VERBOSE | VIDEO

  /** `OutputLevel::contains`: every bit of `mask` is set in `level`. */
  predicate Contains(level: Level, mask: Level) {
    level & mask == mask
  }

  /** The flags are five distinct single bits, and `all()` is exactly their union. */
  lemma FlagsAreDistinctBits()
    ensures GENERAL & (GENERAL - 1) == 0 && VIDEO_TRACK & (VIDEO_TRACK - 1) == 0
    ensures AUDIO_TRACK & (AUDIO_TRACK - 1) == 0 && VERBOSE & (VERBOSE - 1) == 0 && VIDEO & (VIDEO - 1) == 0
    ensures GENERAL & VIDEO_TRACK == 0 && GENERAL & AUDIO_TRACK == 0 && GENERAL & VERBOSE == 0 && GENERAL & VIDEO == 0
    ensures VIDEO_TRACK & AUDIO_TRACK == 0 && VIDEO_TRACK & VERBOSE == 0 && VIDEO_TRACK & VIDEO == 0
    ensures AUDIO_TRACK & VERBOSE == 0 && AUDIO_TRACK & VIDEO == 0 && VERBOSE & VIDEO == 0
    ensures ALL == 0x19C
  {
  }

  /** The characters `from_str` splits on: whitespace, `,` and `|`. */
  predicate IsSeparator(c: char) {
    IsWhitespace(c) || c == ',' || c == '|'
  }

  /** No character of `t` is a separator. */
  predicate NoSeparator(t: string) {
    forall i :: 0 <= i < |t| ==> !IsSeparator(t[i])
  }

  /**
   * `str::split` with the separator predicate: the pieces between
   * separators, including the empty ones between adjacent separators and
   * at either end.
   */
  function Pieces(s: string): (r: seq<string>)
    ensures |r| >= 1
  {
    if s == [] then [""]
    else if IsSeparator(s[0]) then [""] + Pieces(s[1..])
    else
      var rest := Pieces(s[1..]);
      [[s[0]] + rest[0]] + rest[1..]
  }

  /** Every piece is free of separators. */
  lemma {:induction false} PiecesHaveNoSeparator(s: string)
    ensures forall k :: 0 <= k < |Pieces(s)| ==> NoSeparator(Pieces(s)[k])
    decreases |s|
  {
    if s != [] {
      PiecesHaveNoSeparator(s[1..]);
      if !IsSeparator(s[0]) {
        var rest := Pieces(s[1..]);
        assert NoSeparator(rest[0]);
        assert NoSeparator([s[0]] + rest[0]);
      }
    }
  }

  /** A string without separators is a single piece. */
  lemma {:induction false} PiecesOfToken(t: string)
    requires NoSeparator(t)
    ensures Pieces(t) == [t]
    decreases |t|
  {
    if t != [] {
      assert NoSeparator(t[1..]) by {
        forall i | 0 <= i < |t[1..]| ensures !IsSeparator(t[1..][i]) {
          assert t[1..][i] == t[i + 1];
        }
      }
      PiecesOfToken(t[1..]);
      assert [t[0]] + t[1..] == t;
    }
  }

  /** A string made only of separators falls into empty pieces. */
  lemma {:induction false} PiecesOfSeparators(s: string)
    requires forall i :: 0 <= i < |s| ==> IsSeparator(s[i])
    ensures forall k :: 0 <= k < |Pieces(s)| ==> Pieces(s)[k] == ""
    decreases |s|
  {
    if s != [] {
      assert forall i :: 0 <= i < |s[1..]| ==> s[1..][i] == s[i + 1];
      PiecesOfSeparators(s[1..]);
    }
  }

  /** The flag a token names, if any. */
  function TokenFlag(t: string): (r: Option<Level>)
    ensures r.Some? ==> r.value != 0 && Contains(ALL, r.value)
  {
    match t
    case "general" => Some(GENERAL)
    case "video-track" => Some(VIDEO_TRACK)
    case "audio-track" => Some(AUDIO_TRACK)
    case "verbose" => Some(VERBOSE)
    case "all" => Some(ALL)
    case "video-info" => Some(VIDEO)
    case _ => None
  }

  /**
   * One step of the fold: an earlier error stays, an empty piece is
   * skipped, a known token is OR-ed in, and an unknown one is the error.
   */
  function Step(prior: Result<Level, string>, t: string): Result<Level, string> {
    if prior.Err? || t == "" then prior
    else if TokenFlag(t).None? then Err(t)
    else Ok(prior.value | TokenFlag(t).value)
  }

  /** The level a list of pieces denotes, read left to right. */
  function ParsePieces(ps: seq<string>): Result<Level, string> {
    if ps == [] then Ok(0) else Step(ParsePieces(ps[..|ps| - 1]), ps[|ps| - 1])
  }

  /**
   * What `OutputLevel::from_str` returns: a level holding only declared
   * flags, or the error naming a non-empty piece of the text that is no
   * known token.
   */
  function LevelOf(s: string): (r: Result<Level, string>)
    ensures r.Ok? ==> Contains(ALL, r.value)
    ensures r.Err? ==> r.error in Pieces(Trim(s)) && r.error != "" && TokenFlag(r.error).None?
  {
    ParseWithinAll(Pieces(Trim(s)));
    ParseErrorIsUnknownPiece(Pieces(Trim(s)));
    ParsePieces(Pieces(Trim(s)))
  }

  /** A failed fold names one of its pieces, a non-empty one that is no known token. */
  lemma {:induction false} ParseErrorIsUnknownPiece(ps: seq<string>)
    ensures ParsePieces(ps).Err? ==>
      ParsePieces(ps).error in ps && ParsePieces(ps).error != "" && TokenFlag(ParsePieces(ps).error).None?
    decreases |ps|
  {
    if ps != [] {
      ParseErrorIsUnknownPiece(ps[..|ps| - 1]);
    }
  }

  /** The outcome of reading two runs of pieces one after the other. */
  function Combine(a: Result<Level, string>, b: Result<Level, string>): Result<Level, string> {
    if a.Err? then a else if b.Err? then b else Ok(a.value | b.value)
  }

  lemma StepCombine(a: Result<Level, string>, b: Result<Level, string>, t: string)
    ensures Step(Combine(a, b), t) == Combine(a, Step(b, t))
  {
    if a.Ok? && b.Ok? && t != "" && TokenFlag(t).Some? {
      assert (a.value | b.value) | TokenFlag(t).value == a.value | (b.value | TokenFlag(t).value);
    }
  }

  /** Reading a concatenation: the first error wins, otherwise the two levels are OR-ed. */
  lemma {:induction false} ParseConcat(ps: seq<string>, qs: seq<string>)
    ensures ParsePieces(ps + qs) == Combine(ParsePieces(ps), ParsePieces(qs))
    decreases |qs|
  {
    if qs == [] {
      assert ps + qs == ps;
      assert ParsePieces(ps).Ok? ==> ParsePieces(ps).value | 0 == ParsePieces(ps).value;
    } else {
      var init := qs[..|qs| - 1];
      assert (ps + qs)[..|ps + qs| - 1] == ps + init;
      ParseConcat(ps, init);
      StepCombine(ParsePieces(ps), ParsePieces(init), qs[|qs| - 1]);
    }
  }

  /** Every parsed level holds only declared flags. */
  lemma {:induction false} ParseWithinAll(ps: seq<string>)
    ensures ParsePieces(ps).Ok? ==> Contains(ALL, ParsePieces(ps).value)
    decreases |ps|
  {
    if ps != [] {
      ParseWithinAll(ps[..|ps| - 1]);
    }
  }

  /**
   * The order of the tokens does not matter: swapping two runs of pieces
   * keeps a success a success with the same level, and a failure a failure.
   */
  lemma OrderInsensitive(ps: seq<string>, qs: seq<string>)
    ensures ParsePieces(ps + qs).Ok? <==> ParsePieces(qs + ps).Ok?
    ensures ParsePieces(ps + qs).Ok? ==> ParsePieces(ps + qs).value == ParsePieces(qs + ps).value
  {
    ParseConcat(ps, qs);
    ParseConcat(qs, ps);
    var a, b := ParsePieces(ps), ParsePieces(qs);
    if a.Ok? && b.Ok? {
      assert a.value | b.value == b.value | a.value;
    }
  }

  /** Repeating the tokens changes nothing. */
  lemma DuplicateInsensitive(ps: seq<string>)
    ensures ParsePieces(ps + ps) == ParsePieces(ps)
  {
    ParseConcat(ps, ps);
    var a := ParsePieces(ps);
    if a.Ok? {
      assert a.value | a.value == a.value;
    }
  }

  /** Empty pieces are ignored wherever they stand. */
  lemma EmptyPieceIgnored(ps: seq<string>, qs: seq<string>)
    ensures ParsePieces(ps + [""] + qs) == ParsePieces(ps + qs)
  {
    ParseConcat(ps + [""], qs);
    ParseConcat(ps, qs);
  }

  lemma {:induction false} AllEmptyPieces(ps: seq<string>)
    requires forall k :: 0 <= k < |ps| ==> ps[k] == ""
    ensures ParsePieces(ps) == Ok(0)
    decreases |ps|
  {
    if ps != [] {
      AllEmptyPieces(ps[..|ps| - 1]);
    }
  }

  /** An empty or separator-only option is the empty level. */
  lemma SeparatorsOnly(s: string)
    requires forall i :: 0 <= i < |s| ==> IsSeparator(s[i])
    ensures LevelOf(s) == Ok(0)
  {
    var t := Trim(s);
    var u := TrimStart(s);
    assert u == s[|s| - |u|..];
    assert t == u[..|t|];
    assert forall i :: 0 <= i < |t| ==> t[i] == s[|s| - |u| + i];
    PiecesOfSeparators(t);
    AllEmptyPieces(Pieces(t));
  }

  /** A single token reads as its flag, and anything else as an error naming it. */
  lemma SingleToken(t: string)
    requires t != "" && NoSeparator(t)
    ensures TokenFlag(t).Some? ==> LevelOf(t) == Ok(TokenFlag(t).value)
    ensures TokenFlag(t).None? ==> LevelOf(t) == Err(t)
  {
    assert !IsSeparator(t[0]) && !IsSeparator(t[|t| - 1]);
    TrimUnchanged(t);
    PiecesOfToken(t);
    assert Trim(t) == t;
    assert Pieces(Trim(t)) == [t];
    assert [t][..0] == [];
    assert ParsePieces([t]) == Step(Ok(0), t);
  }

  /**
   * `from_str`: trims, splits on the separators, and folds the tokens into
   * a level, failing on the first token it does not know.
   */
  method FromStr(s: string) returns (r: Result<Level, string>)
    ensures r == LevelOf(s)
    ensures r.Ok? ==> Contains(ALL, r.value)
  {
    var split := Pieces(Trim(s));
    r := FoldTokens(split);
    ParseWithinAll(split);
  }

  /** The token loop of `from_str`, over the pieces of the split. */
  method FoldTokens(split: seq<string>) returns (r: Result<Level, string>)
    ensures r == ParsePieces(split)
  {
    var level: Level := 0;
    var i := 0;
    while i < |split|
      invariant 0 <= i <= |split|
      invariant ParsePieces(split[..i]) == Ok(level)
    {
      assert split[..i + 1][..i] == split[..i];
      var token := split[i];
      if token != "" {
        var next := TokenFlag(token);
        if next.None? {
          ParseConcat(split[..i + 1], split[i + 1..]);
          assert split[..i + 1] + split[i + 1..] == split;
          return Err(token);
        }
        level := level | next.value;
      }
      i := i + 1;
    }
    assert split[..i] == split;
    return Ok(level);
  }

  /** Splitting at a separator splits the pieces there. */
  lemma {:induction false} PiecesAtSeparator(a: string, c: char, b: string)
    requires IsSeparator(c)
    ensures Pieces(a + [c] + b) == Pieces(a) + Pieces(b)
    decreases |a|
  {
    if a == [] {
      assert a + [c] + b == [c] + b;
      assert ([c] + b)[1..] == b;
    } else {
      assert (a + [c] + b)[1..] == a[1..] + [c] + b;
      PiecesAtSeparator(a[1..], c, b);
    }
  }

  /** `OutputFormat`: how the result is printed. */
  datatype OutputFormat = Debug | PrettyDebug | Json | PrettyJson | Yaml | Stdout

  /** `OutputFormat::default()` */
  const DEFAULT_FORMAT: OutputFormat := PrettyJson

  /** The kebab-case name serde reads and writes for each format. */
  function FormatName(f: OutputFormat): string {
    match f
    case Debug => "debug"
    case PrettyDebug => "pretty-debug"
    case Json => "json"
    case PrettyJson => "pretty-json"
    case Yaml => "yaml"
    case Stdout => "stdout"
  }

  /**
   * `parse_from_str` on text without JSON escapes: the format whose name is
   * `s`. The source reads the text as a JSON string, so an escaped spelling
   * of a name (`pretty\u002djson`) also names its format; that decoding is
   * not part of this model.
   */
  function ParseFormat(s: string): (r: Option<OutputFormat>)
    ensures r.Some? ==> FormatName(r.value) == s
  {
    match s
    case "debug" => Some(Debug)
    case "pretty-debug" => Some(PrettyDebug)
    case "json" => Some(Json)
    case "pretty-json" => Some(PrettyJson)
    case "yaml" => Some(Yaml)
    case "stdout" => Some(Stdout)
    case _ => None
  }

  /** Every format's name reads back as that format; the `--output` default is the default format. */
  lemma FormatNameRoundTrip(f: OutputFormat)
    ensures ParseFormat(FormatName(f)) == Some(f)
    ensures ParseFormat("pretty-json") == Some(DEFAULT_FORMAT)
  {
  }
}
