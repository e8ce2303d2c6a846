/**
 * The character-indexed string helpers of src/structs.rs (`StringUtils`
 * for `str`): `substring`, `substr` and `slice`. Rust strings are UTF-8
 * bytes; the helpers walk the characters and remember the byte offsets they
 * pass, so the byte width of each character is modelled explicitly.
 */
module StringUtils {
  import opened Wrappers

  /** `char::len_utf8` */
  function Utf8Len(c: char): (n: nat)
    ensures 1 <= n <= 4
  {
    if c as int < 0x80 then 1
    else if c as int < 0x800 then 2
    else if c as int < 0x1_0000 then 3
    else 4
  }

  /** `str::len`: the number of UTF-8 bytes. */
  function ByteLen(s: string): (n: nat)
    ensures n >= |s|
  {
    if s == [] then 0 else ByteLen(s[..|s| - 1]) + Utf8Len(s[|s| - 1])
  }

  /** `str::len` adds up over concatenation. */
  lemma {:induction false} ByteLenAppend(a: string, b: string)
    ensures ByteLen(a + b) == ByteLen(a) + ByteLen(b)
    decreases |b|
  {
    if b == [] {
      assert a + b == a;
    } else {
      ByteLenAppend(a, b[..|b| - 1]);
      assert (a + b)[..|a + b| - 1] == a + b[..|b| - 1];
    }
  }

  /** Every character is below U+0080, so one byte wide. */
  predicate IsAscii(s: string) {
    forall i :: 0 <= i < |s| ==> s[i] as int < 0x80
  }

  /** An ASCII string has as many bytes as characters. */
  lemma {:induction false} AsciiByteLen(s: string)
    requires IsAscii(s)
    ensures ByteLen(s) == |s|
  {
    if s != [] {
      AsciiByteLen(s[..|s| - 1]);
    }
  }

  /** The characters from position `a` up to position `b`, both clipped to the string. */
  function Clip(s: string, a: nat, b: nat): (r: string)
    requires a <= b
    ensures |r| <= b - a
    ensures a < |s| ==> r == s[a..if b < |s| then b else |s|]
    ensures a >= |s| ==> r == ""
  {
    if a >= |s| then "" else s[a..if b < |s| then b else |s|]
  }

  /** `substring(start, end)`: the characters between the two positions, whichever comes first. */
  function SubstringOf(s: string, start: nat, end: nat): string {
    if end >= start then Clip(s, start, end) else Clip(s, end, start)
  }

  /**
   * `substr(start, len)`: at most `len` characters from position `start`,
   * exactly `len` when they exist, none from the end on, and each the
   * character at its position.
   */
  function SubstrOf(s: string, start: nat, len: nat): (r: string)
    ensures |r| <= len
    ensures start >= |s| ==> r == ""
    ensures start + len <= |s| ==> |r| == len
    ensures forall i :: 0 <= i < |r| ==> start + i < |s| && r[i] == s[start + i]
  {
    Clip(s, start, start + len)
  }

  /**
   * `char_pos` advances from 0 towards `target`, one character at a time,
   * until the target or the end of the string is reached; `byte` counts the
   * bytes passed.
   */
  method Advance(s: string, from: nat, target: nat, byteFrom: nat) returns (pos: nat, byte: nat)
    requires from <= |s| && byteFrom == ByteLen(s[..from])
    ensures pos == if from + target <= |s| then from + target else |s|
    ensures byte == ByteLen(s[..pos])
  {
    var charPos := 0;
    pos := from;
    byte := byteFrom;
    while charPos != target && pos < |s|
      invariant from <= pos <= |s| && charPos == pos - from && charPos <= target
      invariant byte == ByteLen(s[..pos])
    {
      assert s[..pos + 1][..pos] == s[..pos];
      byte := byte + Utf8Len(s[pos]);
      pos := pos + 1;
      charPos := charPos + 1;
    }
  }

  /** `substr`, as the two character-counting loops and a byte-range cut. */
  method Substr(s: string, start: nat, len: nat) returns (r: string)
    ensures r == SubstrOf(s, start, len)
  {
    var from, byteStart := Advance(s, 0, start, 0);
    var to, byteEnd := Advance(s, from, len, byteStart);
    r := s[from..to];
  }

  /** `substring`: orders the two positions, then cuts like `substr`. */
  method Substring(s: string, start: nat, end: nat) returns (r: string)
    ensures r == SubstringOf(s, start, end)
  {
    var lo, hi := start, end;
    if end < start {
      lo, hi := end, start;
    }
    var from, byteStart := Advance(s, 0, lo, 0);
    var to, byteEnd := Advance(s, from, hi - lo, byteStart);
    r := s[from..to];
  }

  /** A bound of a `RangeBounds<usize>` argument. */
  datatype Bound = Included(n: nat) | Excluded(n: nat) | Unbounded

  /**
   * `slice(range)`: the start bound is taken as it is (an excluded start is
   * not moved past), an included end gets one more, an open end is the
   * byte length. A length below zero is the `usize` subtraction overflow
   * panic, here None.
   */
  method Slice(s: string, startBound: Bound, endBound: Bound) returns (r: Option<string>)
    ensures r == SliceOf(s, startBound, endBound)
  {
    var start := if startBound.Unbounded? then 0 else startBound.n;
    var end := match endBound
      case Included(n) => n + 1
      case Excluded(n) => n
      case Unbounded => ByteLen(s);
    if end < start {
      return None;
    }
    var cut := Substr(s, start, end - start);
    r := Some(cut);
  }

  /** What `slice` returns. */
  function SliceOf(s: string, startBound: Bound, endBound: Bound): Option<string> {
    var start := if startBound.Unbounded? then 0 else startBound.n;
    var end := match endBound
      case Included(n) => n + 1
      case Excluded(n) => n
      case Unbounded => ByteLen(s);
    if end < start then None else Some(SubstrOf(s, start, end - start))
  }

  /** `substring` is symmetric in its two positions and yields the characters between them. */
  lemma SubstringSpec(s: string, a: nat, b: nat)
    ensures SubstringOf(s, a, b) == SubstringOf(s, b, a)
    ensures var lo := if a <= b then a else b;
      var hi := if a <= b then b else a;
      |SubstringOf(s, a, b)| == (if hi <= |s| then hi - lo else if lo <= |s| then |s| - lo else 0)
    ensures forall i :: 0 <= i < |SubstringOf(s, a, b)| ==> SubstringOf(s, a, b)[i] == s[(if a <= b then a else b) + i]
  {
  }

  /** An excluded start bound cuts exactly like an included one. */
  lemma SliceStartBoundIgnoresExclusion(s: string, n: nat, endBound: Bound)
    ensures SliceOf(s, Excluded(n), endBound) == SliceOf(s, Included(n), endBound)
  {
  }

  /** `slice(start..)` is the whole suffix from character `start`: the byte length is never short of the character count. */
  lemma SliceOpenEndIsSuffix(s: string, start: nat)
    requires start <= |s|
    ensures SliceOf(s, Included(start), Unbounded) == Some(s[start..])
  {
    var n := ByteLen(s);
    assert SubstrOf(s, start, n - start) == Clip(s, start, n);
    if start < |s| {
      assert Clip(s, start, n) == s[start..];
    } else {
      assert s[start..] == [];
    }
  }

  /** `slice(a..=b)` is `substr(a, b - a + 1)`, and a reversed range has no result. */
  lemma SliceInclusive(s: string, a: nat, b: nat)
    ensures a <= b + 1 ==> SliceOf(s, Included(a), Included(b)) == Some(SubstrOf(s, a, b + 1 - a))
    ensures b + 1 < a ==> SliceOf(s, Included(a), Included(b)).None?
  {
  }
}
