/**
 * The JavaScript scanner behind `cut_after_js` and the `between` marker
 * search (src/utils.rs), both used to carve the player's cipher functions
 * out of its source text.
 *
 * `cut_after_js` walks the text byte by byte from position 0, counting
 * `{[(` up and `}])` down, skipping quoted strings (with `\` escapes),
 * block comments and regular-expression literals, and stops at the
 * first position where the nesting is no longer positive. Characters stand
 * for bytes: a multi-byte character never equals one of the delimiters the
 * scanner looks for, so it plays the same role as its bytes do.
 */
module JsScan {
  import opened Wrappers
  import opened Text

  /**
   * Outcome of `cut_after_js`: `Found` is `Some(prefix)`, `NotFound` is
   * `None`, and `OutOfBounds` is the slice-index panic the Rust code hits on
   * an unterminated string, regex or comment, or on a `/` in last position.
   */
  datatype Cut = Found(js: string) | NotFound | OutOfBounds

  /** What the scanner is inside of: plain code, a literal closed by `quote`, or a comment. */
  datatype Mode = Code | Quoted(quote: char) | Comment

  predicate IsOpener(c: char) { c == '{' || c == '[' || c == '(' }
  predicate IsCloser(c: char) { c == '}' || c == ']' || c == ')' }
  predicate IsQuote(c: char) { c == '"' || c == '\'' || c == '`' }

  /**
   * The scanner as a machine that consumes one character per step, in the
   * state (`i`, mode, `nest`, `last`) of the Rust loop (`index`, which inner
   * loop it is in, `nest`, `last_significant`).
   */
  function Scan(s: string, i: nat, mode: Mode, nest: int, last: Option<char>): Cut
    requires i <= |s|
    decreases |s| - i
  {
    match mode
    case Code =>
      if !(nest > 0 || i == 0) then (if i == 1 then NotFound else Found(s[..i]))
      else if i == |s| then NotFound
      else
        var c := s[i];
        if IsOpener(c) then Scan(s, i + 1, Code, nest + 1, last)
        else if IsCloser(c) then Scan(s, i + 1, Code, nest - 1, last)
        else if IsQuote(c) then Scan(s, i + 1, Quoted(c), nest, last)
        else if c == '/' && i + 1 == |s| then OutOfBounds
        else if c == '/' && s[i + 1] == '*' then Scan(s, i + 2, Comment, nest, last)
        else if c == '/' && last.Some? && !IsAsciiAlphanumeric(last.value) then Scan(s, i + 1, Quoted('/'), nest, last)
        else if !IsAsciiWhitespace(c) then Scan(s, i + 1, Code, nest, Some(c))
        else Scan(s, i + 1, Code, nest, last)
    case Quoted(q) =>
      if i == |s| then OutOfBounds
      else if s[i] == q then Scan(s, i + 1, Code, nest, last)
      else if s[i] == '\\' then (if i + 2 > |s| then OutOfBounds else Scan(s, i + 2, Quoted(q), nest, last))
      else Scan(s, i + 1, Quoted(q), nest, last)
    case Comment =>
      if i == |s| then OutOfBounds
      else if s[i] == '*' && i + 1 == |s| then OutOfBounds
      else if s[i] == '*' && s[i + 1] == '/' then Scan(s, i + 2, Code, nest, last)
      else Scan(s, i + 1, Comment, nest, last)
  }

  /** What `cut_after_js` computes: the machine started on the whole input. */
  function JsCut(s: string): Cut {
    Scan(s, 0, Code, 0, None)
  }

  /** `cut_after_js` (src/utils.rs:1349-1410), with its nested skip loops. */
  method CutAfterJs(s: string) returns (r: Cut)
    ensures r == JsCut(s)
  {
    var index: nat := 0;
    var nest: int := 0;
    var last: Option<char> := None;
    while nest > 0 || index == 0
      invariant index <= |s|
      invariant Scan(s, index, Code, nest, last) == JsCut(s)
      decreases |s| - index
    {
      if index >= |s| {
        return NotFound;
      }
      var c := s[index];
      if IsOpener(c) {
        nest := nest + 1;
      } else if IsCloser(c) {
        nest := nest - 1;
      } else if IsQuote(c) {
        var close := SkipQuoted(s, index + 1, c, nest, last);
        if close.None? {
          return OutOfBounds;
        }
        index := close.value;
      } else if c == '/' && index + 1 >= |s| {
        return OutOfBounds;
      } else if c == '/' && s[index + 1] == '*' {
        index := index + 2;
        while true
          invariant index <= |s|
          invariant Scan(s, index, Comment, nest, last) == JsCut(s)
          decreases |s| - index
        {
          if index >= |s| || (s[index] == '*' && index + 1 >= |s|) {
            return OutOfBounds;
          }
          if s[index] == '*' && s[index + 1] == '/' {
            break;
          }
          index := index + 1;
        }
        index := index + 2;
        continue;
      } else if c == '/' && last.Some? && !IsAsciiAlphanumeric(last.value) {
        var close := SkipQuoted(s, index + 1, c, nest, last);
        if close.None? {
          return OutOfBounds;
        }
        index := close.value;
      } else if !IsAsciiWhitespace(c) {
        last := Some(c);
      }
      index := index + 1;
    }
    if index == 1 {
      return NotFound;
    }
    return Found(s[..index]);
  }

  /**
   * The string/regex skip loop: from `from`, advance to the closing `quote`,
   * stepping over the character after each `\`. `None` is the panic on
   * running off the end.
   */
  method SkipQuoted(s: string, from: nat, quote: char, ghost nest: int, ghost last: Option<char>)
    returns (close: Option<nat>)
    requires from <= |s|
    ensures close.None? ==> Scan(s, from, Quoted(quote), nest, last) == OutOfBounds
    ensures close.Some? ==> from <= close.value < |s| && s[close.value] == quote
    ensures close.Some? ==>
      Scan(s, from, Quoted(quote), nest, last) == Scan(s, close.value + 1, Code, nest, last)
  {
    var index := from;
    while true
      invariant from <= index <= |s|
      invariant Scan(s, index, Quoted(quote), nest, last) == Scan(s, from, Quoted(quote), nest, last)
      decreases |s| - index
    {
      if index >= |s| {
        return None;
      }
      if s[index] == quote {
        return Some(index);
      }
      if s[index] == '\\' {
        index := index + 1;
      }
      index := index + 1;
      if index > |s| {
        return None;
      }
    }
  }

  // ---------------------------------------------------------------------
  // Properties of the scanner
  // ---------------------------------------------------------------------

  /**
   * A cut is a prefix of the input, at least two characters long, ending at
   * or after `i`, and strictly after `i` while the scan is still going.
   */
  lemma {:induction false} ScanFoundIsPrefix(s: string, i: nat, mode: Mode, nest: int, last: Option<char>)
    requires i <= |s|
    ensures Scan(s, i, mode, nest, last).Found? ==>
      var js := Scan(s, i, mode, nest, last).js;
      2 <= |js| && i <= |js| <= |s| && js == s[..|js|] &&
      (!mode.Code? || nest > 0 || i == 0 ==> i < |js|)
    decreases |s| - i, 1
  {
    match mode
    case Code => CodeFoundIsPrefix(s, i, nest, last);
    case Quoted(q) => QuotedFoundIsPrefix(s, i, q, nest, last);
    case Comment => CommentFoundIsPrefix(s, i, nest, last);
  }

  /** `ScanFoundIsPrefix` in code. */
  lemma {:induction false} CodeFoundIsPrefix(s: string, i: nat, nest: int, last: Option<char>)
    requires i <= |s|
    ensures Scan(s, i, Code, nest, last).Found? ==>
      var js := Scan(s, i, Code, nest, last).js;
      2 <= |js| && i <= |js| <= |s| && js == s[..|js|] && (nest > 0 || i == 0 ==> i < |js|)
    decreases |s| - i, 0
  {
    if !(nest > 0 || i == 0) {
    } else if i == |s| {
    } else {
      var c := s[i];
      if IsOpener(c) { ScanFoundIsPrefix(s, i + 1, Code, nest + 1, last); }
      else if IsCloser(c) { ScanFoundIsPrefix(s, i + 1, Code, nest - 1, last); }
      else if IsQuote(c) { ScanFoundIsPrefix(s, i + 1, Quoted(c), nest, last); }
      else if c == '/' && i + 1 == |s| { }
      else if c == '/' && s[i + 1] == '*' { ScanFoundIsPrefix(s, i + 2, Comment, nest, last); }
      else if c == '/' && last.Some? && !IsAsciiAlphanumeric(last.value) {
        ScanFoundIsPrefix(s, i + 1, Quoted('/'), nest, last);
      }
      else if !IsAsciiWhitespace(c) { ScanFoundIsPrefix(s, i + 1, Code, nest, Some(c)); }
      else { ScanFoundIsPrefix(s, i + 1, Code, nest, last); }
    }
  }

  /** `ScanFoundIsPrefix` inside a literal. */
  lemma {:induction false} QuotedFoundIsPrefix(s: string, i: nat, q: char, nest: int, last: Option<char>)
    requires i <= |s|
    ensures Scan(s, i, Quoted(q), nest, last).Found? ==>
      var js := Scan(s, i, Quoted(q), nest, last).js;
      2 <= |js| && i < |js| <= |s| && js == s[..|js|]
    decreases |s| - i, 0
  {
    if i == |s| {
    } else if s[i] == q {
      ScanFoundIsPrefix(s, i + 1, Code, nest, last);
    } else if s[i] == '\\' {
      if i + 2 <= |s| { ScanFoundIsPrefix(s, i + 2, Quoted(q), nest, last); }
    } else {
      ScanFoundIsPrefix(s, i + 1, Quoted(q), nest, last);
    }
  }

  /** `ScanFoundIsPrefix` inside a block comment. */
  lemma {:induction false} CommentFoundIsPrefix(s: string, i: nat, nest: int, last: Option<char>)
    requires i <= |s|
    ensures Scan(s, i, Comment, nest, last).Found? ==>
      var js := Scan(s, i, Comment, nest, last).js;
      2 <= |js| && i < |js| <= |s| && js == s[..|js|]
    decreases |s| - i, 0
  {
    if i == |s| {
    } else if s[i] == '*' && i + 1 == |s| {
    } else if s[i] == '*' && s[i + 1] == '/' {
      ScanFoundIsPrefix(s, i + 2, Code, nest, last);
    } else {
      ScanFoundIsPrefix(s, i + 1, Comment, nest, last);
    }
  }

  /** `cut_after_js` returns a prefix of its input of length at least 2. */
  lemma CutIsPrefix(s: string)
    ensures JsCut(s).Found? ==> 2 <= |JsCut(s).js| <= |s| && JsCut(s).js == s[..|JsCut(s).js|]
  {
    ScanFoundIsPrefix(s, 0, Code, 0, None);
  }

  /**
   * A successful scan reads nothing at or beyond the end of its cut: any
   * text `u` that agrees with `s` up to the cut gives the same cut.
   */
  lemma {:induction false} ScanOnlyReadsCut(s: string, u: string, i: nat, mode: Mode, nest: int, last: Option<char>)
    requires i <= |s| && Scan(s, i, mode, nest, last).Found?
    requires var k := |Scan(s, i, mode, nest, last).js|; k <= |u| && k <= |s| && u[..k] == s[..k]
    ensures i <= |u| && Scan(u, i, mode, nest, last) == Scan(s, i, mode, nest, last)
    decreases |s| - i, 1
  {
    ScanFoundIsPrefix(s, i, mode, nest, last);
    var k := |Scan(s, i, mode, nest, last).js|;
    assert forall p :: 0 <= p < k ==> u[p] == s[p] by {
      forall p | 0 <= p < k ensures u[p] == s[p] {
        assert u[..k][p] == s[..k][p];
      }
    }
    match mode
    case Code => CodeReadsCut(s, u, i, nest, last);
    case Quoted(q) => QuotedReadsCut(s, u, i, q, nest, last);
    case Comment => CommentReadsCut(s, u, i, nest, last);
  }

  /** `ScanOnlyReadsCut` in code. */
  lemma {:induction false} CodeReadsCut(s: string, u: string, i: nat, nest: int, last: Option<char>)
    requires i <= |s| && Scan(s, i, Code, nest, last).Found?
    requires var k := |Scan(s, i, Code, nest, last).js|; i <= k <= |u| && k <= |s| && forall p :: 0 <= p < k ==> u[p] == s[p]
    ensures i <= |u| && Scan(u, i, Code, nest, last) == Scan(s, i, Code, nest, last)
    decreases |s| - i, 0
  {
    ScanFoundIsPrefix(s, i, Code, nest, last);
    var k := |Scan(s, i, Code, nest, last).js|;
    assert u[..k] == s[..k];
    if !(nest > 0 || i == 0) {
      assert u[..i] == s[..i];
    } else {
      var c := s[i];
      if IsOpener(c) { ScanOnlyReadsCut(s, u, i + 1, Code, nest + 1, last); }
      else if IsCloser(c) { ScanOnlyReadsCut(s, u, i + 1, Code, nest - 1, last); }
      else if IsQuote(c) { ScanOnlyReadsCut(s, u, i + 1, Quoted(c), nest, last); }
      else if c == '/' && s[i + 1] == '*' {
        ScanFoundIsPrefix(s, i + 2, Comment, nest, last);
        ScanOnlyReadsCut(s, u, i + 2, Comment, nest, last);
      }
      else if c == '/' && last.Some? && !IsAsciiAlphanumeric(last.value) {
        ScanFoundIsPrefix(s, i + 1, Quoted('/'), nest, last);
        ScanOnlyReadsCut(s, u, i + 1, Quoted('/'), nest, last);
      }
      else if !IsAsciiWhitespace(c) {
        ScanFoundIsPrefix(s, i + 1, Code, nest, Some(c));
        ScanOnlyReadsCut(s, u, i + 1, Code, nest, Some(c));
      }
      else { ScanOnlyReadsCut(s, u, i + 1, Code, nest, last); }
    }
  }

  /** `ScanOnlyReadsCut` inside a literal. */
  lemma {:induction false} QuotedReadsCut(s: string, u: string, i: nat, q: char, nest: int, last: Option<char>)
    requires i <= |s| && Scan(s, i, Quoted(q), nest, last).Found?
    requires var k := |Scan(s, i, Quoted(q), nest, last).js|; i <= k <= |u| && k <= |s| && forall p :: 0 <= p < k ==> u[p] == s[p]
    ensures i <= |u| && Scan(u, i, Quoted(q), nest, last) == Scan(s, i, Quoted(q), nest, last)
    decreases |s| - i, 0
  {
    ScanFoundIsPrefix(s, i, Quoted(q), nest, last);
    var k := |Scan(s, i, Quoted(q), nest, last).js|;
    assert u[..k] == s[..k];
    if s[i] == q {
      ScanOnlyReadsCut(s, u, i + 1, Code, nest, last);
    } else if s[i] == '\\' {
      ScanOnlyReadsCut(s, u, i + 2, Quoted(q), nest, last);
    } else {
      ScanOnlyReadsCut(s, u, i + 1, Quoted(q), nest, last);
    }
  }

  /** `ScanOnlyReadsCut` inside a block comment. */
  lemma {:induction false} CommentReadsCut(s: string, u: string, i: nat, nest: int, last: Option<char>)
    requires i <= |s| && Scan(s, i, Comment, nest, last).Found?
    requires var k := |Scan(s, i, Comment, nest, last).js|; i <= k <= |u| && k <= |s| && forall p :: 0 <= p < k ==> u[p] == s[p]
    ensures i <= |u| && Scan(u, i, Comment, nest, last) == Scan(s, i, Comment, nest, last)
    decreases |s| - i, 0
  {
    ScanFoundIsPrefix(s, i, Comment, nest, last);
    var k := |Scan(s, i, Comment, nest, last).js|;
    assert u[..k] == s[..k];
    if s[i] == '*' && s[i + 1] == '/' {
      ScanFoundIsPrefix(s, i + 2, Code, nest, last);
      ScanOnlyReadsCut(s, u, i + 2, Code, nest, last);
    } else {
      if s[i] == '*' {
        ScanFoundIsPrefix(s, i + 1, Comment, nest, last);
      }
      ScanOnlyReadsCut(s, u, i + 1, Comment, nest, last);
    }
  }

  /** Whatever follows a balanced prefix is ignored (the `...abcd` test cases). */
  lemma CutIgnoresTail(s: string, tail: string)
    requires JsCut(s).Found?
    ensures JsCut(s + tail) == JsCut(s)
  {
    var k := |JsCut(s).js|;
    ScanFoundIsPrefix(s, 0, Code, 0, None);
    assert (s + tail)[..k] == s[..k];
    ScanOnlyReadsCut(s, s + tail, 0, Code, 0, None);
  }

  /** Cutting a cut changes nothing. */
  lemma CutIdempotent(s: string)
    requires JsCut(s).Found?
    ensures JsCut(JsCut(s).js) == JsCut(s)
  {
    var js := JsCut(s).js;
    ScanFoundIsPrefix(s, 0, Code, 0, None);
    assert js[..|js|] == s[..|js|];
    ScanOnlyReadsCut(s, js, 0, Code, 0, None);
  }

  /**
   * Nothing balanced can start at byte 0 unless it is an opening bracket, a
   * quote or a slash: `cut_after_js("abcd]}")` is `None`.
   */
  lemma CutNeedsOpeningAtStart(s: string)
    requires s == [] || !(IsOpener(s[0]) || IsQuote(s[0]) || s[0] == '/')
    ensures JsCut(s) == NotFound
  {
    if s != [] {
      var c := s[0];
      if IsCloser(c) {
        assert JsCut(s) == Scan(s, 1, Code, -1, None);
      } else if !IsAsciiWhitespace(c) {
        assert JsCut(s) == Scan(s, 1, Code, 0, Some(c));
      } else {
        assert JsCut(s) == Scan(s, 1, Code, 0, None);
      }
    }
  }

  // --- Skipping literals ---------------------------------------------------

  /** `b` is the body of a literal closed by `q`: every `q` in it is escaped and no `\` is left dangling. */
  predicate LiteralBody(b: string, q: char)
    decreases |b|
  {
    b == [] ||
    (b[0] == '\\' && |b| >= 2 && LiteralBody(b[2..], q)) ||
    (b[0] != '\\' && b[0] != q && LiteralBody(b[1..], q))
  }

  /**
   * Inside a literal the scanner looks at nothing but the closing quote and
   * escapes: it resumes in code right after the closing quote with the same
   * nesting and the same last significant character, whatever brackets the
   * literal holds.
   */
  lemma {:induction false} ScanSkipsLiteral(s: string, i: nat, b: string, q: char, nest: int, last: Option<char>)
    requires LiteralBody(b, q) && q != '\\'
    requires i + |b| < |s| && s[i..i + |b|] == b && s[i + |b|] == q
    ensures Scan(s, i, Quoted(q), nest, last) == Scan(s, i + |b| + 1, Code, nest, last)
    decreases |b|
  {
    if b == [] {
    } else if b[0] == '\\' && |b| >= 2 && LiteralBody(b[2..], q) {
      assert s[i] == '\\' && s[i + 2..i + |b|] == b[2..];
      ScanSkipsLiteral(s, i + 2, b[2..], q, nest, last);
    } else {
      assert s[i] == b[0] && s[i + 1..i + |b|] == b[1..];
      ScanSkipsLiteral(s, i + 1, b[1..], q, nest, last);
    }
  }

  /** A comment body that does not contain the closing star-slash. */
  predicate CommentBody(b: string) {
    forall k :: 0 <= k < |b| ==> !(b[k] == '*' && (b + "*/")[k + 1] == '/')
  }

  /** A comment is skipped up to its first star-slash, whatever it holds. */
  lemma {:induction false} ScanSkipsComment(s: string, i: nat, b: string, nest: int, last: Option<char>)
    requires CommentBody(b)
    requires i + |b| + 2 <= |s| && s[i..i + |b| + 2] == b + "*/"
    ensures Scan(s, i, Comment, nest, last) == Scan(s, i + |b| + 2, Code, nest, last)
    decreases |b|
  {
    if b == [] {
      assert s[i] == '*' && s[i + 1] == '/';
    } else {
      assert s[i] == b[0] && s[i + 1] == (b + "*/")[1];
      assert CommentBody(b[1..]) by {
        forall k | 0 <= k < |b| - 1 ensures !(b[1..][k] == '*' && (b[1..] + "*/")[k + 1] == '/') {
          assert b[1..][k] == b[k + 1] && (b[1..] + "*/")[k + 1] == (b + "*/")[k + 2];
        }
      }
      assert s[i + 1..i + 1 + |b[1..]| + 2] == b[1..] + "*/";
      ScanSkipsComment(s, i + 1, b[1..], nest, last);
    }
  }

  // --- Plain bracket text -------------------------------------------------

  /** Opening minus closing brackets in `t`. */
  function Depth(t: string): int {
    if t == [] then 0
    else Depth(t[..|t| - 1]) + (if IsOpener(t[|t| - 1]) then 1 else if IsCloser(t[|t| - 1]) then -1 else 0)
  }

  /** Text without quotes or slashes, where only brackets matter. */
  predicate Plain(s: string) {
    forall k :: 0 <= k < |s| ==> !IsQuote(s[k]) && s[k] != '/'
  }

  /** `k` is the first length at which the bracket depth of `s` is no longer positive. */
  predicate ClosesAt(s: string, k: nat) {
    1 <= k <= |s| && Depth(s[..k]) <= 0 && forall j :: 1 <= j < k ==> Depth(s[..j]) > 0
  }

  lemma DepthStep(s: string, i: nat)
    requires i < |s|
    ensures Depth(s[..i + 1]) == Depth(s[..i]) + (if IsOpener(s[i]) then 1 else if IsCloser(s[i]) then -1 else 0)
  {
    assert s[..i + 1][..i] == s[..i];
  }

  lemma {:induction false} PlainScan(s: string, i: nat, nest: int, last: Option<char>)
    requires Plain(s) && 1 <= i <= |s|
    requires nest == Depth(s[..i]) && forall j :: 1 <= j < i ==> Depth(s[..j]) > 0
    ensures Scan(s, i, Code, nest, last) != OutOfBounds
    ensures Scan(s, i, Code, nest, last).Found? ==>
      var k := |Scan(s, i, Code, nest, last).js|;
      k <= |s| && Scan(s, i, Code, nest, last).js == s[..k] && ClosesAt(s, k) && k >= 2
    ensures Scan(s, i, Code, nest, last).NotFound? ==>
      ClosesAt(s, 1) || forall k :: 1 <= k <= |s| ==> Depth(s[..k]) > 0
    decreases |s| - i
  {
    if nest <= 0 {
      assert ClosesAt(s, i);
    } else if i == |s| {
    } else {
      PlainStep(s, i, nest, last);
      PlainScan(s, i + 1, Depth(s[..i + 1]), LastAfter(s[i], last));
    }
  }

  /** The last character that is neither blank nor a bracket, after `c` is read in code. */
  function LastAfter(c: char, last: Option<char>): Option<char> {
    if IsOpener(c) || IsCloser(c) || IsAsciiWhitespace(c) then last else Some(c)
  }

  /** One step of the scan over plain text: the depth follows the bracket read. */
  lemma PlainStep(s: string, i: nat, nest: int, last: Option<char>)
    requires Plain(s) && 1 <= i < |s| && nest > 0 && nest == Depth(s[..i])
    ensures Scan(s, i, Code, nest, last) == Scan(s, i + 1, Code, Depth(s[..i + 1]), LastAfter(s[i], last))
  {
    DepthStep(s, i);
    assert !IsQuote(s[i]) && s[i] != '/';
  }

  /**
   * On text with no quotes, comments or regexes, `cut_after_js` returns the
   * shortest prefix at which the bracket nesting returns to zero, and `None`
   * when the nesting never returns to zero or the text does not open with a
   * bracket. It never panics on such text.
   */
  lemma PlainCut(s: string)
    requires Plain(s)
    ensures JsCut(s) != OutOfBounds
    ensures JsCut(s).Found? ==>
      var js := JsCut(s).js;
      2 <= |js| <= |s| && js == s[..|js|] && ClosesAt(s, |js|) && Depth(js) == 0
    ensures JsCut(s).NotFound? ==> ClosesAt(s, 1) || forall k :: 1 <= k <= |s| ==> Depth(s[..k]) > 0
  {
    if s != [] {
      var c := s[0];
      DepthStep(s, 0);
      var last := if IsOpener(c) || IsCloser(c) || IsAsciiWhitespace(c) then None else Some(c);
      assert JsCut(s) == Scan(s, 1, Code, Depth(s[..1]), last);
      PlainScan(s, 1, Depth(s[..1]), last);
      if JsCut(s).Found? {
        var k := |JsCut(s).js|;
        DepthStep(s, k - 1);
      }
    }
  }

  // ---------------------------------------------------------------------
  // between
  // ---------------------------------------------------------------------

  /**
   * `between` (src/utils.rs:1328-1344): the text after the first `left`
   * up to the next `right`, or "" if either marker is missing.
   */
  function Between(hay: string, left: string, right: string): string {
    match IndexOf(hay, left)
    case None => ""
    case Some(i) =>
      var pos := i + |left|;
      match IndexOf(hay[pos..], right)
      case None => ""
      case Some(m) => hay[pos..pos + m]
  }

  /** An occurrence inside a prefix of `t` is an occurrence in `t`. */
  lemma OccursInPrefix(p: string, t: string, n: string, j: nat)
    requires StartsWith(t, p) && OccursAt(p, n, j)
    ensures OccursAt(t, n, j)
  {
    assert t[j..j + |n|] == p[j..j + |n|];
  }

  lemma MarkersAround(hay: string, i: nat, left: string, r: string, right: string)
    requires i + |left| <= |hay| && hay[i..i + |left|] == left
    requires StartsWith(hay[i + |left|..], r + right)
    ensures StartsWith(hay[i..], left + r + right)
  {
    var t := hay[i..];
    assert t[..|left|] == left;
    assert t[|left|..][..|r + right|] == r + right;
    assert t[..|left + r + right|] == t[..|left|] + t[|left|..][..|r + right|];
  }

  /**
   * What `between` returns, without reference to how: with `i` the first
   * occurrence of `left`, the text at `i` reads `left`, the result, `right`,
   * and `right` does not start anywhere before the end of the result; if
   * either marker is missing the result is empty.
   */
  lemma BetweenSpec(hay: string, left: string, right: string)
    ensures IndexOf(hay, left).None? ==> Between(hay, left, right) == ""
    ensures IndexOf(hay, left).Some? ==>
      var i := IndexOf(hay, left).value;
      var r := Between(hay, left, right);
      if Contains(hay[i + |left|..], right) then
        StartsWith(hay[i..], left + r + right) && IndexOf(r + right, right) == Some(|r|)
      else r == ""
  {
    if IndexOf(hay, left).Some? {
      var i := IndexOf(hay, left).value;
      var rest := hay[i + |left|..];
      if !Contains(rest, right) {
        assert Between(hay, left, right) == "";
      } else {
        var m := IndexOf(rest, right).value;
        assert Between(hay, left, right) == rest[..m];
        FirstMarkerUpTo(rest, right, m);
        MarkersAround(hay, i, left, rest[..m], right);
      }
    }
  }

  /** With `m` the first occurrence of `right` in `rest`, `rest[..m]` is followed by `right` and holds no earlier start of it. */
  lemma FirstMarkerUpTo(rest: string, right: string, m: nat)
    requires IndexOf(rest, right) == Some(m)
    ensures StartsWith(rest, rest[..m] + right)
    ensures IndexOf(rest[..m] + right, right) == Some(m)
  {
    var r := rest[..m];
    assert rest[..m + |right|] == r + right by {
      assert rest[m..m + |right|] == right;
    }
    forall j: nat | j < m ensures !OccursAt(r + right, right, j) {
      if OccursAt(r + right, right, j) {
        OccursInPrefix(r + right, rest, right, j);
      }
    }
    assert OccursAt(r + right, right, m);
  }
}
