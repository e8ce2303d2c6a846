/**
 * `time_to_ms` (src/utils.rs): a `[[h:]m:]s` duration, as the player
 * prints it, to milliseconds. Fields are read from the right, the i-th one
 * weighing 60^i seconds; a field that does not parse as `usize` counts 0.
 */
module Duration {
  import opened Wrappers
  import opened Text

  /** `60_u32.pow(i)` stays within `u32` for at most this many fields (60^5 < 2^32 <= 60^6). */
  const MAX_FIELDS: nat := 6

  /** `curr.parse::<usize>().unwrap_or(0)` */
  function FieldValue(field: string): (v: nat)
    ensures ParseUnsigned(field, U64_MAX).None? ==> v == 0
    ensures ParseUnsigned(field, U64_MAX).Some? ==> v == ParseUnsigned(field, U64_MAX).value
  {
    ParseUnsigned(field, U64_MAX).UnwrapOr(0)
  }

  function Pow60(i: nat): (p: nat)
    ensures p >= 1
  {
    if i == 0 then 1 else 60 * Pow60(i - 1)
  }

  /** The value of every field, in order. */
  function FieldValues(fields: seq<string>): (ds: seq<nat>)
    ensures |ds| == |fields|
    ensures forall k :: 0 <= k < |fields| ==> ds[k] == FieldValue(fields[k])
  {
    seq(|fields|, k requires 0 <= k < |fields| => FieldValue(fields[k]))
  }

  /** The value of the digits read in base 60, the most significant first. */
  function Sexagesimal(ds: seq<nat>): nat {
    if ds == [] then 0
    else 60 * Sexagesimal(ds[..|ds| - 1]) + ds[|ds| - 1]
  }

  /** The accumulator after `i` rounds of the loop: the last `i` digits, each with its weight. */
  function SumOfLast(ds: seq<nat>, i: nat): nat
    requires i <= |ds|
  {
    if i == 0 then 0
    else SumOfLast(ds, i - 1) + ds[|ds| - i] * Pow60(i - 1)
  }

  /** The milliseconds `time_to_ms` computes. */
  function TimeMs(duration: string): nat {
    1000 * Sexagesimal(FieldValues(Split(duration, ":")))
  }

  /** `time_to_ms`: the loop over the reversed, enumerated fields, then the scaling to milliseconds. */
  method TimeToMs(duration: string) returns (ms: nat)
    requires |Split(duration, ":")| <= MAX_FIELDS
    ensures ms == TimeMs(duration)
  {
    var seconds := SumFields(Split(duration, ":"));
    ms := seconds * 1000;
  }

  /** The loop of `time_to_ms`: field `i` from the right is worth its value times `60^i` seconds. */
  method SumFields(fields: seq<string>) returns (seconds: nat)
    ensures seconds == Sexagesimal(FieldValues(fields))
  {
    ghost var ds := FieldValues(fields);
    seconds := 0;
    var i := 0;
    while i < |fields|
      invariant i <= |fields|
      invariant seconds == SumOfLast(ds, i)
    {
      seconds := AddField(seconds, fields[|fields| - 1 - i], i, ds);
      i := i + 1;
    }
    SumOfLastIsSexagesimal(ds);
  }

  /** One round of the loop: the field's value, weighted by `60^i`, is added. */
  method AddField(ms: nat, field: string, i: nat, ghost ds: seq<nat>) returns (sum: nat)
    requires i < |ds| && ds[|ds| - 1 - i] == FieldValue(field) && ms == SumOfLast(ds, i)
    ensures sum == SumOfLast(ds, i + 1)
  {
    SumOfLastStep(ds, i);
    sum := ms + FieldValue(field) * Pow60(i);
  }

  lemma SumOfLastStep(ds: seq<nat>, i: nat)
    requires i < |ds|
    ensures SumOfLast(ds, i + 1) == SumOfLast(ds, i) + ds[|ds| - 1 - i] * Pow60(i)
  {
  }

  /** Taking the last digit off: the rest weighs sixty times more. */
  lemma {:induction false} SumOfLastSplit(prefix: seq<nat>, last: nat, i: nat)
    requires i <= |prefix|
    ensures SumOfLast(prefix + [last], i + 1) == last + 60 * SumOfLast(prefix, i)
  {
    var ds := prefix + [last];
    if i == 0 {
      assert ds[|prefix|] == last;
    } else {
      SumOfLastSplit(prefix, last, i - 1);
      SumOfLastStep(ds, i);
      SumOfLastStep(prefix, i - 1);
      assert ds[|ds| - 1 - i] == prefix[|prefix| - 1 - (i - 1)];
      RegroupBySixty(SumOfLast(ds, i + 1), SumOfLast(ds, i), SumOfLast(prefix, i), last,
        SumOfLast(prefix, i - 1), prefix[|prefix| - i], Pow60(i - 1));
    }
  }

  /** The arithmetic of one step of `SumOfLastSplit`. */
  lemma RegroupBySixty(total: nat, rest: nat, prefixSum: nat, l: nat, a: nat, v: nat, p: nat)
    requires total == rest + v * (60 * p) && rest == l + 60 * a && prefixSum == a + v * p
    ensures total == l + 60 * prefixSum
  {
    ScaleBySixty(v, p);
  }

  lemma ScaleBySixty(a: nat, b: nat)
    ensures a * (60 * b) == 60 * (a * b)
  {
  }

  /** The loop's sum of weighted digits is the positional base-60 value. */
  lemma {:induction false} SumOfLastIsSexagesimal(ds: seq<nat>)
    ensures SumOfLast(ds, |ds|) == Sexagesimal(ds)
    decreases |ds|
  {
    if ds != [] {
      var prefix := ds[..|ds| - 1];
      var last := ds[|ds| - 1];
      assert ds == prefix + [last];
      SumOfLastIsSexagesimal(prefix);
      SumOfLastSplit(prefix, last, |prefix|);
    }
  }

  /** Replacing an unparsable field by `0` changes nothing: such a field counts 0. */
  lemma UnparsableFieldCountsZero(fields: seq<string>, k: nat)
    requires k < |fields| && ParseUnsigned(fields[k], U64_MAX).None?
    ensures Sexagesimal(FieldValues(fields)) == Sexagesimal(FieldValues(fields[k := "0"]))
  {
    assert FieldValue("0") == 0 by { assert AllDigits("0") && DigitsValue("0") == 0; }
    assert FieldValues(fields[k := "0"]) == FieldValues(fields);
  }

  /** Three colon-free fields joined by `:` weigh 3600, 60 and 1 seconds. */
  lemma ThreeFieldTime(a: string, b: string, c: string)
    requires Avoids(a, ':') && Avoids(b, ':') && Avoids(c, ':')
    ensures TimeMs(a + ":" + b + ":" + c) == 1000 * (3600 * FieldValue(a) + 60 * FieldValue(b) + FieldValue(c))
  {
    var parts := [a, b, c];
    JoinThree(a, b, c, ":");
    SplitJoin(parts, ":");
    ThreeFields(a, b, c);
  }

  lemma DigitsAvoidColon(s: string)
    requires AllDigits(s)
    ensures Avoids(s, ':')
  {
  }

  /** Parsing printed `h:m:s` gives back 3600h + 60m + s seconds, in milliseconds. */
  lemma ClockTime(h: nat, m: nat, s: nat)
    requires h <= U64_MAX && m <= U64_MAX && s <= U64_MAX
    ensures TimeMs(NatToString(h) + ":" + NatToString(m) + ":" + NatToString(s)) == 1000 * (3600 * h + 60 * m + s)
  {
    DigitsAvoidColon(NatToString(h));
    DigitsAvoidColon(NatToString(m));
    DigitsAvoidColon(NatToString(s));
    ThreeFieldTime(NatToString(h), NatToString(m), NatToString(s));
    ParseNatToString(h, U64_MAX);
    ParseNatToString(m, U64_MAX);
    ParseNatToString(s, U64_MAX);
  }

  lemma JoinThree(a: string, b: string, c: string, sep: string)
    ensures Join([a, b, c], sep) == a + sep + b + sep + c
  {
    JoinCons(a, [b, c], sep);
    JoinCons(b, [c], sep);
    assert [a] + [b, c] == [a, b, c];
    assert [b] + [c] == [b, c];
  }

  lemma ThreeFields(a: string, b: string, c: string)
    ensures Sexagesimal(FieldValues([a, b, c])) == 3600 * FieldValue(a) + 60 * FieldValue(b) + FieldValue(c)
  {
    var x, y, z := FieldValue(a), FieldValue(b), FieldValue(c);
    assert FieldValues([a, b, c]) == [x, y, z];
    assert [x, y, z][..2] == [x, y];
    assert [x, y][..1] == [x];
    assert [x][..0] == [];
    assert Sexagesimal([x]) == x;
    assert Sexagesimal([x, y]) == 60 * x + y;
    assert Sexagesimal([x, y, z]) == 60 * (60 * x + y) + z;
  }
}
