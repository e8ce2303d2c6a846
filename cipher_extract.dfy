/**
 * `extract_functions` (src/utils.rs:1047-1166): finds the player's
 * signature-decipher function and its `n`-transform function in the player
 * source and returns each as a (name, self-contained script) pair, in that
 * order.
 */
module CipherExtract {
  import opened Wrappers
  import opened Text
  import opened JsScan
  import opened StringUtils

  const DECIPHER_LEFT := "a.set(\"alr\",\"yes\");c&&(c="
  const DECIPHER_RIGHT := "(decodeURIC"
  const MANIPULATION_LEFT := "a=a.split(\"\");"
  const NCODE_LEFT := "c=a.get(b))&&(c="
  const NCODE_RIGHT := "(c)"
  const ENHANCED_MARKER := "enhanced_except_"
  /** The opening brace of a function body or object literal. */
  const OPEN_BRACE: char := '{'
  /** The fallback script when no function body is found: `{}`. */
  const EMPTY_BODY := [OPEN_BRACE, '}']
  /** What follows the helper object's name in its definition, `={`. */
  const OBJECT_DEF := ['=', OPEN_BRACE]
  /** A function body returning its argument, `{return a}`. */
  const IDENTITY_BODY := [OPEN_BRACE] + "return a}"

  /** One extracted function, or the scanner panic that aborts the whole extraction. */
  datatype Entry = Absent | Present(name: string, script: string) | Panicked

  /** What `cut_after_js(sub).unwrap_or(default)` can give: the default, or a prefix of `sub` at least two characters long. */
  predicate CutOf(sub: string, default: string, cut: string) {
    cut == default || (2 <= |cut| && StartsWith(sub, cut))
  }

  /** `cut_after_js(sub).unwrap_or(default)`; `None` is the scanner's panic. */
  function CutOr(sub: string, default: string): (r: Option<string>)
    ensures r.None? <==> JsCut(sub).OutOfBounds?
    ensures JsCut(sub).NotFound? ==> r == Some(default)
    ensures JsCut(sub).Found? ==> r == Some(JsCut(sub).js)
    ensures r.Some? ==> CutOf(sub, default, r.value)
  {
    CutIsPrefix(sub);
    match JsCut(sub)
    case Found(js) => Some(js)
    case NotFound => Some(default)
    case OutOfBounds => None
  }

  /** `String::retain(|c| c != '\n')` */
  function RemoveNewlines(s: string): (r: string)
    ensures Avoids(r, '\n')
  {
    RemoveChar(s, '\n')
  }

  /** `head` occurs at `ndx`, so its byte offset plus its byte length is within the body's byte length. */
  lemma HeadBytesFit(body: string, ndx: nat, head: string)
    requires OccursAt(body, head, ndx)
    ensures ByteLen(body[..ndx]) + ByteLen(head) <= ByteLen(body)
  {
    var rest := body[ndx + |head|..];
    assert body == body[..ndx] + head + rest;
    ByteLenAppend(body[..ndx], head);
    ByteLenAppend(body[..ndx] + head, rest);
  }

  /**
   * `body.slice((ndx + head.len() - back)..)` with `ndx` the byte offset
   * `str::find` reports for `head`. `slice` counts characters, so the cut
   * starts at the character whose index is that byte offset: just past the
   * head (less `back`) when the text up to there is ASCII, further on when
   * it holds wider characters, and nothing once past the end.
   */
  function SubBody(body: string, ndx: nat, head: string, back: nat): (r: string)
    requires OccursAt(body, head, ndx) && back <= |head|
    ensures var at := ByteLen(body[..ndx]) + ByteLen(head) - back;
      (at <= |body| ==> r == body[at..]) && (at > |body| ==> r == "")
  {
    var at := ByteLen(body[..ndx]) + ByteLen(head) - back;
    HeadBytesFit(body, ndx, head);
    SliceOf(body, Included(at), Unbounded).value
  }

  /** On an ASCII body the byte offset is the character offset, so the cut starts just past the head, less `back`. */
  lemma AsciiSubBody(body: string, ndx: nat, head: string, back: nat)
    requires OccursAt(body, head, ndx) && back <= |head|
    requires IsAscii(body[..ndx + |head|])
    ensures SubBody(body, ndx, head, back) == body[ndx + |head| - back..]
  {
    var pre := body[..ndx + |head|];
    assert pre[..ndx] == body[..ndx];
    assert pre[ndx..] == head;
    AsciiByteLen(body[..ndx]);
    AsciiByteLen(head);
  }

  /**
   * A two-byte character before an ASCII head moves the cut one character
   * past the head: the first character after it is lost.
   */
  lemma WideCharShiftsCut(c: char, head: string, rest: string)
    requires 0x80 <= c as int < 0x800 && IsAscii(head) && rest != []
    ensures OccursAt([c] + head + rest, head, 1)
    ensures SubBody([c] + head + rest, 1, head, 0) == rest[1..]
  {
    var body := [c] + head + rest;
    assert body[1..1 + |head|] == head;
    assert body[..1] == [c];
    assert ByteLen(body[..1]) == 2 by {
      assert body[..1][..0] == [];
    }
    AsciiByteLen(head);
    assert body[2 + |head|..] == rest[1..];
  }

  /**
   * So a function body right after the head, `{return a}`, loses its `{`:
   * the scanner finds no function body and the `{}` fallback replaces it.
   */
  lemma WideCharDropsFunctionBody(c: char, head: string)
    requires 0x80 <= c as int < 0x800 && IsAscii(head)
    ensures OccursAt([c] + head + IDENTITY_BODY, head, 1)
    ensures CutOr(SubBody([c] + head + IDENTITY_BODY, 1, head, 0), EMPTY_BODY) == Some(EMPTY_BODY)
  {
    WideCharShiftsCut(c, head, IDENTITY_BODY);
    CutNeedsOpeningAtStart(IDENTITY_BODY[1..]);
  }

  /**
   * `extract_manipulations`: the helper object the decipher function calls,
   * `var NAME={...}`, found through the name after `a=a.split("");`. It is
   * empty when the name or its definition is missing, and otherwise
   * `var NAME=` followed by the scanner's cut from the definition's byte
   * offset on, or `null`.
   */
  function Manipulations(body: string, caller: string): (r: Option<string>)
    ensures var name := Between(caller, MANIPULATION_LEFT, ".");
      r == Some("") <==> name == "" || !Contains(body, "var " + name + OBJECT_DEF)
    ensures var name := Between(caller, MANIPULATION_LEFT, ".");
      r.None? ==> name != "" && Contains(body, "var " + name + OBJECT_DEF)
    ensures var name := Between(caller, MANIPULATION_LEFT, ".");
      var head := "var " + name + OBJECT_DEF;
      name != "" && Contains(body, head) ==>
        var cut := CutOr(SubBody(body, IndexOf(body, head).value, head, 1), "null");
        r == (if cut.None? then None else Some("var " + name + "=" + cut.value))
  {
    var name := Between(caller, MANIPULATION_LEFT, ".");
    if name == "" then Some("")
    else
      var start := "var " + name + OBJECT_DEF;
      match IndexOf(body, start)
      case None => Some("")
      case Some(ndx) =>
        match CutOr(SubBody(body, ndx, start, 1), "null")
        case None => None
        case Some(cut) => Some("var " + name + "=" + cut)
  }

  /** The script `extract_decipher` builds: the helper object, then the cut definition, without newlines. */
  function DecipherScript(manip: string, name: string, cut: string): (r: string)
    ensures Avoids(r, '\n')
  {
    RemoveNewlines(manip + ";" + "var " + name + "=function(a)" + cut + ";")
  }

  /** The cut taken from the first occurrence of the definition `head` on, or `{}`; `None` where the scanner panics. */
  function DefinitionCut(body: string, head: string): Option<string>
    requires Contains(body, head)
  {
    CutOr(SubBody(body, IndexOf(body, head).value, head, 0), EMPTY_BODY)
  }

  /**
   * `extract_decipher`: an entry is named by the non-empty text between the
   * two markers, its definition `NAME=function(a)` occurs in the body, and
   * its script is the helper object found through the cut definition, then
   * `var NAME=function(a)` and the scanner's cut from the definition's
   * byte offset on (or `{}`), without newlines.
   */
  function DecipherEntry(body: string): (r: Entry)
    ensures r.Present? ==> r.name == Between(body, DECIPHER_LEFT, DECIPHER_RIGHT) && r.name != ""
    ensures r.Present? ==> IndexOf(body, r.name + "=function(a)").Some? && Avoids(r.script, '\n')
    ensures r.Present? ==>
      var head := r.name + "=function(a)";
      var cut := DefinitionCut(body, head);
      cut.Some? &&
      var manip := Manipulations(body, "var " + head + cut.value);
      manip.Some? && r.script == DecipherScript(manip.value, r.name, cut.value)
    ensures var name := Between(body, DECIPHER_LEFT, DECIPHER_RIGHT);
      var head := name + "=function(a)";
      name != "" && Contains(body, head) ==>
        (r.Panicked? <==> DefinitionCut(body, head).None? ||
                          Manipulations(body, "var " + head + DefinitionCut(body, head).value).None?)
  {
    var name := Between(body, DECIPHER_LEFT, DECIPHER_RIGHT);
    if name == "" then Absent
    else
      var start := name + "=function(a)";
      match IndexOf(body, start)
      case None => Absent
      case Some(_) =>
        match DefinitionCut(body, start)
        case None => Panicked
        case Some(cut) =>
          var decl := "var " + start + cut;
          match Manipulations(body, decl)
          case None => Panicked
          case Some(manip) =>
            Present(name, DecipherScript(manip, name, cut))
  }

  // --- The regex fallback for the n-transform name -------------------------

  /** `[a-zA-Z0-9_$]` */
  predicate IsNameChar(c: char) { IsAsciiAlphanumeric(c) || c == '_' || c == '$' }

  /** End of the longest run of whitespace starting at `i`. */
  function SkipWhitespace(s: string, i: nat): (j: nat)
    requires i <= |s|
    ensures i <= j <= |s| && (j == |s| || !IsWhitespace(s[j]))
    ensures forall k :: i <= k < j ==> IsWhitespace(s[k])
    decreases |s| - i
  {
    if i < |s| && IsWhitespace(s[i]) then SkipWhitespace(s, i + 1) else i
  }

  /** End of the longest run of name characters starting at `i`. */
  function SkipName(s: string, i: nat): (j: nat)
    requires i <= |s|
    ensures i <= j <= |s| && (j == |s| || !IsNameChar(s[j]))
    ensures forall k :: i <= k < j ==> IsNameChar(s[k])
    decreases |s| - i
  {
    if i < |s| && IsNameChar(s[i]) then SkipName(s, i + 1) else i
  }

  /** A match of `;\s*NAME\s*=\s*function\(ARG\)\s*\{`: the name and the end of the match. */
  datatype Decl = Decl(name: string, end: nat)

  /**
   * The regex match starting at `p`, if any. The name and argument runs
   * are maximal because neither `=`, `)` nor whitespace is a name
   * character, so no backtracking alternative exists.
   */
  function DeclAt(s: string, p: nat): (r: Option<Decl>)
    ensures r.Some? ==> p < r.value.end <= |s| && s[p] == ';' && s[r.value.end - 1] == OPEN_BRACE
    ensures r.Some? ==> |r.value.name| > 0 && forall k :: 0 <= k < |r.value.name| ==> IsNameChar(r.value.name[k])
  {
    if p < |s| && s[p] == ';' then
      var a := SkipWhitespace(s, p + 1);
      var b := SkipName(s, a);
      var c := SkipWhitespace(s, b);
      if a < b && c < |s| && s[c] == '=' then
        match FunctionHeadAt(s, SkipWhitespace(s, c + 1))
        case None => None
        case Some(end) => Some(Decl(s[a..b], end))
      else None
    else None
  }

  /** The rest of the match from `d` on: `function\(ARG\)\s*\{`, and the position after the `{`. */
  function FunctionHeadAt(s: string, d: nat): (r: Option<nat>)
    requires d <= |s|
    ensures r.Some? ==> d < r.value <= |s| && s[r.value - 1] == OPEN_BRACE
  {
    if StartsWith(s[d..], "function(") then
      var f := SkipName(s, d + 9);
      if d + 9 < f < |s| && s[f] == ')' then
        var g := SkipWhitespace(s, f + 1);
        if g < |s| && s[g] == OPEN_BRACE then Some(g + 1) else None
      else None
    else None
  }

  /** The match at `p` is followed by a body, up to the first `};`, that mentions `enhanced_except_`. */
  predicate Enhanced(s: string, p: nat) {
    match DeclAt(s, p)
    case None => false
    case Some(decl) =>
      match IndexOf(s[decl.end..], "};")
      case None => false
      case Some(k) => Contains(s[decl.end..decl.end + k], ENHANCED_MARKER)
  }

  /** The name declared by the match at `p` when that match is enhanced, otherwise "". */
  function EnhancedName(s: string, p: nat): string
  {
    if Enhanced(s, p) then DeclAt(s, p).value.name else ""
  }

  lemma EnhancedNameSpec(s: string, p: nat)
    ensures EnhancedName(s, p) != "" <==> Enhanced(s, p)
    ensures Enhanced(s, p) ==> EnhancedName(s, p) == DeclAt(s, p).value.name
  {
  }

  /** The last non-empty `f(p)` for `p < n`, or "". */
  function LastNamed(f: nat -> string, n: nat): string
  {
    if n == 0 then ""
    else if f(n - 1) != "" then f(n - 1)
    else LastNamed(f, n - 1)
  }

  /** `LastNamed` picks the last position with a name, and "" means there is none. */
  lemma {:induction false} LastNamedSpec(f: nat -> string, n: nat)
    ensures LastNamed(f, n) == "" ==> forall p :: 0 <= p < n ==> f(p) == ""
    ensures LastNamed(f, n) != "" ==>
      exists p :: 0 <= p < n && f(p) == LastNamed(f, n) && forall q :: p < q < n ==> f(q) == ""
  {
    if n > 0 {
      LastNamedSpec(f, n - 1);
      if f(n - 1) != "" {
        assert f(n - 1) == LastNamed(f, n);
      } else if LastNamed(f, n - 1) != "" {
        var p :| 0 <= p < n - 1 && f(p) == LastNamed(f, n - 1) && forall q :: p < q < n - 1 ==> f(q) == "";
        assert forall q :: p < q < n ==> f(q) == "";
      }
    }
  }

  /** The name of the last enhanced match starting before `n`, or "". */
  function LastEnhancedBefore(s: string, n: nat): string
  {
    LastNamed(EnhancedNames(s), n)
  }

  /** `EnhancedName` over every position of `s`. */
  function EnhancedNames(s: string): nat -> string
  {
    (p: nat) => EnhancedName(s, p)
  }

  /**
   * The fallback loop over every regex match: the last match whose body
   * mentions `enhanced_except_` names the function, and nothing names it
   * when no match qualifies.
   */
  lemma LastEnhancedSpec(s: string, n: nat)
    ensures LastEnhancedBefore(s, n) == "" ==> forall p :: 0 <= p < n ==> !Enhanced(s, p)
    ensures LastEnhancedBefore(s, n) != "" ==>
      exists p :: 0 <= p < n && Enhanced(s, p) && DeclAt(s, p).value.name == LastEnhancedBefore(s, n) &&
        forall q :: p < q < n ==> !Enhanced(s, q)
  {
    var f := EnhancedNames(s);
    LastNamedSpec(f, n);
    forall p: nat ensures EnhancedName(s, p) != "" <==> Enhanced(s, p) {
      EnhancedNameSpec(s, p);
    }
    if LastEnhancedBefore(s, n) == "" {
      forall p | 0 <= p < n ensures !Enhanced(s, p) {
        assert f(p) == "";
      }
    } else {
      var p :| 0 <= p < n && f(p) == LastNamed(f, n) && forall q :: p < q < n ==> f(q) == "";
      assert Enhanced(s, p);
      forall q | p < q < n ensures !Enhanced(s, q) {
        assert f(q) == "";
      }
    }
  }

  /** The `for caps in FUNCTION_REGEX.captures_iter(body)` loop. */
  method NcodeFallbackName(body: string) returns (name: string)
    ensures name == LastEnhancedBefore(body, |body|)
  {
    name := LastNamedLoop(EnhancedNames(body), |body|);
  }

  /** The loop body of the fallback: every match with a name overrides the one kept so far. */
  method LastNamedLoop(names: nat -> string, n: nat) returns (name: string)
    ensures name == LastNamed(names, n)
  {
    name := "";
    var p := 0;
    while p < n
      invariant p <= n
      invariant name == LastNamed(names, p)
    {
      var declared := names(p);
      if declared != "" {
        name := declared;
      }
      p := p + 1;
    }
  }

  /**
   * The name `extract_ncode` settles on, before looking for the definition:
   * the text between its markers when that is a plain non-empty name, and
   * nothing only when no declaration matched by the fallback pattern has a
   * body mentioning `enhanced_except_`.
   */
  function NcodeName(body: string): (r: string)
    ensures var direct := Between(body, NCODE_LEFT, NCODE_RIGHT);
      direct != "" && !Contains(direct, "[") ==> r == direct
    ensures var direct := Between(body, NCODE_LEFT, NCODE_RIGHT);
      var indirect := Between(body, "var " + Split(direct, "[")[0] + "=[", "]");
      Contains(direct, "[") && indirect != "" ==> r == indirect
    ensures var direct := Between(body, NCODE_LEFT, NCODE_RIGHT);
      var indirect := Between(body, "var " + Split(direct, "[")[0] + "=[", "]");
      (if Contains(direct, "[") then indirect else direct) == "" ==> r == LastEnhancedBefore(body, |body|)
    ensures r == "" ==> forall p :: 0 <= p < |body| ==> !Enhanced(body, p)
  {
    var direct := Between(body, NCODE_LEFT, NCODE_RIGHT);
    var leftName := "var " + Split(direct, "[")[0] + "=[";
    var name := if Contains(direct, "[") then Between(body, leftName, "]") else direct;
    LastEnhancedSpec(body, |body|);
    if name == "" then LastEnhancedBefore(body, |body|) else name
  }

  /** The script `extract_ncode` builds around the cut definition; it has no newline. */
  function NcodeScript(name: string, cut: string): (r: string)
    ensures Avoids(r, '\n')
  {
    RemoveNewlines("var " + name + "=function(a)" + cut + ";")
  }

  /**
   * `extract_ncode`: an entry is named by the non-empty n-transform name,
   * its definition `NAME=function(a)` occurs in the body, and its script is
   * `var NAME=function(a)` and the scanner's cut from the definition's byte
   * offset on (or `{}`), without newlines.
   */
  function NcodeEntry(body: string): (r: Entry)
    ensures r.Present? ==> r.name == NcodeName(body) && r.name != ""
    ensures r.Present? ==> IndexOf(body, r.name + "=function(a)").Some? && Avoids(r.script, '\n')
    ensures r.Present? ==>
      var head := r.name + "=function(a)";
      var cut := DefinitionCut(body, head);
      cut.Some? && r.script == NcodeScript(r.name, cut.value)
    ensures var name := NcodeName(body);
      var head := name + "=function(a)";
      name != "" && Contains(body, head) ==>
        (r.Panicked? <==> DefinitionCut(body, head).None?)
  {
    var name := NcodeName(body);
    if name == "" then Absent
    else
      var start := name + "=function(a)";
      match IndexOf(body, start)
      case None => Absent
      case Some(_) =>
        match DefinitionCut(body, start)
        case None => Panicked
        case Some(cut) => Present(name, NcodeScript(name, cut))
  }

  /** The `functions.push` of one extractor: one (name, script) pair when the entry was found, none otherwise. */
  function EntryList(e: Entry): (r: seq<(string, string)>)
    requires !e.Panicked?
    ensures |r| <= 1 && (|r| == 1 <==> e.Present?)
    ensures forall k :: 0 <= k < |r| ==> r[k] == (e.name, e.script)
  {
    if e.Present? then [(e.name, e.script)] else []
  }

  /**
   * `extract_functions`: the decipher entry, then the n-transform entry,
   * each only when its name and definition were found; `None` when the
   * scanner panicked.
   */
  function ExtractFunctions(body: string): (r: Option<seq<(string, string)>>)
    ensures r.None? <==> DecipherEntry(body).Panicked? || NcodeEntry(body).Panicked?
    ensures r.Some? ==> |r.value| <= 2
    ensures r.Some? ==> |r.value| == (if DecipherEntry(body).Present? then 1 else 0) + (if NcodeEntry(body).Present? then 1 else 0)
    ensures r.Some? && DecipherEntry(body).Present? ==> r.value[0].0 == Between(body, DECIPHER_LEFT, DECIPHER_RIGHT)
    ensures r.Some? && NcodeEntry(body).Present? ==> r.value[|r.value| - 1].0 == NcodeName(body)
    ensures r.Some? && DecipherEntry(body).Present? ==> r.value[0] == (DecipherEntry(body).name, DecipherEntry(body).script)
    ensures r.Some? && NcodeEntry(body).Present? ==> r.value[|r.value| - 1] == (NcodeEntry(body).name, NcodeEntry(body).script)
    ensures r.Some? ==> forall k :: 0 <= k < |r.value| ==> Avoids(r.value[k].1, '\n')
  {
    var d := DecipherEntry(body);
    var n := NcodeEntry(body);
    if d.Panicked? || n.Panicked? then None
    else Some(EntryList(d) + EntryList(n))
  }

  /**
   * The decipher entry exists exactly when the name between the
   * `a.set("alr","yes");c&&(c=` and `(decodeURIC` markers is non-empty and
   * `NAME=function(a)` occurs in the body (barring a scanner panic).
   */
  lemma DecipherEntryPresence(body: string)
    ensures DecipherEntry(body).Absent? <==>
      var name := Between(body, DECIPHER_LEFT, DECIPHER_RIGHT);
      name == "" || !Contains(body, name + "=function(a)")
  {
  }

  /** An n-transform script declares `var NAME=function(a)` and ends with `;`. */
  lemma NcodeScriptShape(name: string, cut: string)
    requires Avoids(name, '\n')
    ensures var script := NcodeScript(name, cut);
      StartsWith(script, "var " + name + "=function(a)") && script[|script| - 1] == ';'
  {
    var head := "var " + name + "=function(a)";
    assert Avoids(head, '\n');
    assert head + cut + ";" == "var " + name + "=function(a)" + cut + ";";
    RemoveCharAppend(head + cut, ";", '\n');
    RemoveCharAppend(head, cut, '\n');
    RemoveCharAbsent(head, '\n');
    RemoveCharAbsent(";", '\n');
    var script := head + RemoveChar(cut, '\n') + ";";
    assert NcodeScript(name, cut) == script;
    assert script[..|head|] == head;
  }
}
