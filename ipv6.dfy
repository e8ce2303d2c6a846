/**
 * The IPv6 helpers of src/utils.rs: `normalize_ip`, which expands an
 * address written with `::` into its eight 16-bit groups, and
 * `get_random_v6_ip`, which keeps the first `n` bits of a `addr/n` block and
 * takes the rest from a random source. The random source is a parameter
 * here: eight groups supplied by the caller.
 */
module Ipv6 {
  import opened Wrappers
  import opened Text
  import opened Errors

  /** The number of 16-bit groups of an IPv6 address. */
  const GROUPS: nat := 8

  /* ---------- IPV6_REGEX (src/constants.rs) ---------- */

  predicate IsLowerHexDigit(c: char) {
    ('0' <= c <= '9') || ('a' <= c <= 'f')
  }

  /** `[0-9a-f]{1,4}` */
  predicate IsHexGroup(g: string) {
    1 <= |g| <= 4 && forall k :: 0 <= k < |g| ==> IsLowerHexDigit(g[k])
  }

  /**
   * The address part of the regex, in terms of the `:`-separated tokens
   * `t`. The last alternative, `([0-9a-f]{1,4}:){1,7}([0-9a-f]{1,4}|:)`,
   * is either 2 to 8 groups, or 1 to 7 groups followed by `::` (two empty
   * tokens at the end). The other six alternatives,
   * `([0-9a-f]{1,4}:){1,k}(:[0-9a-f]{1,4}){1,7-k}`, are together: `a >= 1`
   * groups, one empty token, then at least one group, at most 8 tokens.
   */
  predicate AddrMatches(addr: string) {
    var t := Split(addr, ":");
    var n := |t|;
    (2 <= n <= GROUPS && forall k :: 0 <= k < n ==> IsHexGroup(t[k]))
    || (3 <= n <= GROUPS + 1 && t[n - 1] == "" && t[n - 2] == ""
        && forall k :: 0 <= k < n - 2 ==> IsHexGroup(t[k]))
    || (exists a :: 1 <= a && a + 2 <= n <= GROUPS && t[a] == "" && AllGroupsBut(t, a))
  }

  predicate AllGroupsBut(t: seq<string>, a: nat) {
    forall k :: 0 <= k < |t| && k != a ==> IsHexGroup(t[k])
  }

  /** The prefix length of the regex: `1[0-1]\d|12[0-8]|\d{1,2}`. */
  predicate MaskMatches(m: string) {
    AllDigits(m)
    && (1 <= |m| <= 2
        || (|m| == 3 && m[0] == '1' && (m[1] == '0' || m[1] == '1' || (m[1] == '2' && m[2] <= '8'))))
  }

  /**
   * `IPV6_REGEX.is_match`: the regex is anchored at both ends and neither
   * part can hold a `/`, so the text is exactly one address, one `/` and
   * one prefix length.
   */
  predicate Ipv6RegexMatch(s: string) {
    var parts := Split(s, "/");
    |parts| == 2 && AddrMatches(parts[0]) && MaskMatches(parts[1])
  }

  /** The prefix length of a block the regex accepts. */
  function PrefixLen(s: string): nat
    requires Ipv6RegexMatch(s)
  {
    DigitsValue(Split(s, "/")[1])
  }

  /** A prefix length the pattern accepts, read with ASCII digits, parses as a `u8` and is at most 128. */
  lemma MaskParses(m: string)
    requires MaskMatches(m)
    ensures DigitsValue(m) <= 128
    ensures ParseUnsigned(m, U8_MAX) == Some(DigitsValue(m))
  {
    if |m| == 3 {
      assert m[..2][..1] == m[..1];
      assert DigitsValue(m[..1]) == 1;
      assert DigitsValue(m[..2]) == 10 + (m[1] as int - '0' as int);
    } else if |m| == 2 {
      assert DigitsValue(m[..1]) <= 9;
    }
  }

  /* ---------- normalize_ip ---------- */

  /** A 16-bit group, as `normalize_ip` returns it. */
  newtype uint16 = x: int | 0 <= x <= 0xffff

  /** `u16::from_str_radix(part, 16).unwrap_or(0)` */
  function GroupValue(part: string): (v: uint16)
    ensures ParseHexU16(part).None? ==> v == 0
    ensures ParseHexU16(part).Some? ==> v as nat == ParseHexU16(part).value
  {
    match ParseHexU16(part)
    case Some(n) => n as uint16
    case None => 0
  }

  /** The groups before the first `::`. */
  function StartTokens(ip: string): seq<string> {
    Split(Split(ip, "::")[0], ":")
  }

  /** The groups after the first `::`, up to a second one; none without a `::`. */
  function EndTokens(ip: string): seq<string> {
    var parts := Split(ip, "::");
    if |parts| >= 2 then Split(parts[1], ":") else []
  }

  function Min(a: nat, b: nat): nat {
    if a <= b then a else b
  }

  /**
   * The eight groups built from the `start` and `end` tokens: the end
   * tokens, right-aligned, win over the start tokens, which are
   * left-aligned; whatever neither reaches is 0.
   */
  function Expand(start: seq<string>, end: seq<string>): (full: seq<uint16>)
    ensures |full| == GROUPS
  {
    seq(GROUPS, k requires 0 <= k < GROUPS =>
      if k >= GROUPS - Min(|end|, GROUPS) then GroupValue(end[|end| - GROUPS + k])
      else if k < Min(|start|, GROUPS) then GroupValue(start[k])
      else 0)
  }

  /** What `normalize_ip` returns. */
  function Normalized(ip: string): (full: seq<uint16>)
    ensures |full| == GROUPS
  {
    Expand(StartTokens(ip), EndTokens(ip))
  }

  /** The two loops of `normalize_ip` over the start tokens and the reversed end tokens. */
  method ExpandGroups(partStart: seq<string>, partEnd: seq<string>) returns (full: seq<uint16>)
    ensures full == Expand(partStart, partEnd)
  {
    // part_end.reverse()
    var reversed := seq(|partEnd|, i requires 0 <= i < |partEnd| => partEnd[|partEnd| - 1 - i]);
    full := [0, 0, 0, 0, 0, 0, 0, 0];
    var i := 0;
    while i < Min(|partStart|, GROUPS)
      invariant i <= Min(|partStart|, GROUPS) && |full| == GROUPS
      invariant forall k :: 0 <= k < GROUPS ==> full[k] == if k < i then GroupValue(partStart[k]) else 0
    {
      full := full[i := GroupValue(partStart[i])];
      i := i + 1;
    }
    i := 0;
    var fromStart := full;
    while i < Min(|reversed|, GROUPS)
      invariant i <= Min(|reversed|, GROUPS) && |full| == GROUPS
      invariant forall k :: 0 <= k < GROUPS ==> full[k] == if k >= GROUPS - i then GroupValue(partEnd[|partEnd| - GROUPS + k]) else fromStart[k]
    {
      var next := full[GROUPS - 1 - i := GroupValue(reversed[i])];
      forall k | 0 <= k < GROUPS
        ensures next[k] == if k >= GROUPS - (i + 1) then GroupValue(partEnd[|partEnd| - GROUPS + k]) else fromStart[k]
      {
        if k == GROUPS - 1 - i {
          assert reversed[i] == partEnd[|partEnd| - GROUPS + k];
        } else {
          assert next[k] == full[k];
        }
      }
      full := next;
      i := i + 1;
    }
  }

  /** `normalize_ip`: the address split at `::`, each side split at `:`, then expanded to eight groups. */
  method NormalizeIp(ip: string) returns (full: seq<uint16>)
    ensures full == Normalized(ip)
  {
    full := ExpandGroups(StartTokens(ip), EndTokens(ip));
  }

  function Values(parts: seq<string>): (v: seq<uint16>)
    ensures |v| == |parts|
  {
    seq(|parts|, k requires 0 <= k < |parts| => GroupValue(parts[k]))
  }

  function ZeroGroups(n: nat): (z: seq<uint16>)
    ensures |z| == n && forall k :: 0 <= k < n ==> z[k] == 0
  {
    seq(n, k => 0)
  }

  lemma ExpandLeft(start: seq<string>)
    requires |start| <= GROUPS
    ensures Expand(start, []) == Values(start) + ZeroGroups(GROUPS - |start|)
  {
    var full, expected := Expand(start, []), Values(start) + ZeroGroups(GROUPS - |start|);
    forall k | 0 <= k < GROUPS
      ensures full[k] == expected[k]
    {
      if k < |start| {
        assert full[k] == GroupValue(start[k]);
        assert expected[k] == Values(start)[k];
      } else {
        assert full[k] == 0;
        assert expected[k] == ZeroGroups(GROUPS - |start|)[k - |start|];
      }
    }
  }

  lemma ExpandBoth(start: seq<string>, end: seq<string>)
    requires |start| + |end| <= GROUPS
    ensures Expand(start, end) == Values(start) + ZeroGroups(GROUPS - |start| - |end|) + Values(end)
  {
    var full, expected := Expand(start, end), Values(start) + ZeroGroups(GROUPS - |start| - |end|) + Values(end);
    forall k | 0 <= k < GROUPS
      ensures full[k] == expected[k]
    {
      if k < |start| {
        assert full[k] == GroupValue(start[k]);
        assert expected[k] == Values(start)[k];
      } else if k < GROUPS - |end| {
        assert full[k] == 0;
        assert expected[k] == ZeroGroups(GROUPS - |start| - |end|)[k - |start|];
      } else {
        assert full[k] == GroupValue(end[k - (GROUPS - |end|)]);
        assert expected[k] == Values(end)[k - (GROUPS - |end|)];
      }
    }
  }

  /** Without `::`, the groups are read left to right and the missing ones are 0. */
  lemma NormalizeUncompressed(ip: string)
    requires |Split(ip, "::")| == 1 && |Split(ip, ":")| <= GROUPS
    ensures Normalized(ip) == Values(Split(ip, ":")) + ZeroGroups(GROUPS - |Split(ip, ":")|)
  {
    assert Split(ip, "::")[0] == ip;
    ExpandLeft(Split(ip, ":"));
  }

  /**
   * With `::` once, the groups before it are left-aligned, the groups after
   * it right-aligned, and the `::` stands for as many zero groups as are
   * missing.
   */
  lemma NormalizeCompressed(ip: string, head: string, tail: string)
    requires Split(ip, "::") == [head, tail]
    requires |Split(head, ":")| + |Split(tail, ":")| <= GROUPS
    ensures Normalized(ip)
      == Values(Split(head, ":")) + ZeroGroups(GROUPS - |Split(head, ":")| - |Split(tail, ":")|) + Values(Split(tail, ":"))
  {
    assert StartTokens(ip) == Split(head, ":") && EndTokens(ip) == Split(tail, ":");
    ExpandBoth(Split(head, ":"), Split(tail, ":"));
  }

  /* ---------- get_random_v6_ip ---------- */

  /** The groups as bit vectors, for the bitwise merge. */
  function ToBits(groups: seq<uint16>): (bits: seq<bv16>)
    ensures |bits| == |groups|
  {
    seq(|groups|, i requires 0 <= i < |groups| => groups[i] as bv16)
  }

  /**
   * Bit `j` of a group, counted from the most significant one, so that bit
   * `16 * i + j` of the address is bit `j` of group `i`.
   */
  predicate GroupBit(g: bv16, j: nat)
    requires j < 16
  {
    g & (0x8000 >> j) != 0
  }

  /** `(0xffff - (2^(16 - static_bits) - 1)) as u16`: exactly the `static_bits` leading bits set. */
  function MaskFor(staticBits: nat): (m: bv16)
    requires staticBits <= 16
    ensures forall j :: 0 <= j < 16 ==> (GroupBit(m, j) <==> j < staticBits)
  {
    (0xffff - ((1 as bv32 << (16 - staticBits)) - 1)) as bv16
  }

  lemma OneHot(j: nat)
    requires j < 16
    ensures var x: bv16 := 0x8000 >> j; x != 0 && x & (x - 1) == 0
  {
  }

  lemma MergeOneHot(base: bv16, random: bv16, mask: bv16, x: bv16)
    requires x != 0 && x & (x - 1) == 0
    ensures ((base & mask) + (random & (mask ^ 0xffff))) & x != 0 <==> if mask & x != 0 then base & x != 0 else random & x != 0
  {
  }

  /** Each bit of a merged group comes from the base where the mask is set, from the random group elsewhere. */
  lemma MergeBit(base: bv16, random: bv16, mask: bv16, j: nat)
    requires j < 16
    ensures GroupBit((base & mask) + (random & (mask ^ 0xffff)), j) == if GroupBit(mask, j) then GroupBit(base, j) else GroupBit(random, j)
  {
    OneHot(j);
    MergeOneHot(base, random, mask, 0x8000 >> j);
  }

  /**
   * Group `g`, whose first bit is bit `offset` of the address, has the base
   * group's bits before bit `prefix` of the address and the random group's
   * bits from there on.
   */
  predicate KeepsPrefix(g: bv16, base: bv16, random: bv16, offset: nat, prefix: nat) {
    forall j :: 0 <= j < 16 ==> GroupBit(g, j) == if offset + j < prefix then GroupBit(base, j) else GroupBit(random, j)
  }

  lemma MergedGroupBits(base: bv16, random: bv16, mask: bv16, remaining: nat, staticBits: nat, offset: nat, prefix: nat)
    requires remaining == (if prefix >= offset then prefix - offset else 0) && staticBits == Min(remaining, 16)
    requires forall j :: 0 <= j < 16 ==> (GroupBit(mask, j) <==> j < staticBits)
    ensures KeepsPrefix(Merge(base, random, mask), base, random, offset, prefix)
  {
    forall j | 0 <= j < 16
      ensures GroupBit(Merge(base, random, mask), j)
        == if offset + j < prefix then GroupBit(base, j) else GroupBit(random, j)
    {
      MergeBit(base, random, mask, j);
    }
  }

  /** The address part of a `addr/n` block. */
  function AddrPart(s: string): string {
    Split(s, "/")[0]
  }

  /** The static bits group `i` takes: what is left of the prefix after the groups before it, at most 16. */
  function StaticBits(prefix: nat, i: nat): (n: nat)
    ensures n <= 16
  {
    Min(if prefix >= 16 * i then prefix - 16 * i else 0, 16)
  }

  /** `(base & mask) + (random & (mask ^ 0xffff))`: the masked bits of `base`, the others of `random`. */
  function Merge(base: bv16, random: bv16, mask: bv16): (g: bv16)
    ensures forall j :: 0 <= j < 16 ==> GroupBit(g, j) == if GroupBit(mask, j) then GroupBit(base, j) else GroupBit(random, j)
  {
    assert forall j :: 0 <= j < 16 ==> GroupBit((base & mask) + (random & (mask ^ 0xffff)), j) == if GroupBit(mask, j) then GroupBit(base, j) else GroupBit(random, j) by {
      forall j | 0 <= j < 16 {
        MergeBit(base, random, mask, j);
      }
    }
    (base & mask) + (random & (mask ^ 0xffff))
  }

  /** The address the loop of `get_random_v6_ip` builds, group by group. */
  function MergedAddr(base: seq<bv16>, random: seq<bv16>, prefix: nat): (addr: seq<bv16>)
    requires |base| == GROUPS && |random| == GROUPS
    ensures |addr| == GROUPS
  {
    seq(GROUPS, i requires 0 <= i < GROUPS =>
      Merge(base[i], random[i], MaskFor(StaticBits(prefix, i))))
  }

  /** Every group of the merged address has the base's bits before the prefix length and the random bits after it. */
  lemma MergedAddrKeepsPrefix(base: seq<bv16>, random: seq<bv16>, prefix: nat)
    requires |base| == GROUPS && |random| == GROUPS
    ensures forall i :: 0 <= i < GROUPS ==> KeepsPrefix(MergedAddr(base, random, prefix)[i], base[i], random[i], 16 * i, prefix)
  {
    forall i | 0 <= i < GROUPS
      ensures KeepsPrefix(MergedAddr(base, random, prefix)[i], base[i], random[i], 16 * i, prefix)
    {
      var staticBits := StaticBits(prefix, i);
      MergedGroupBits(base[i], random[i], MaskFor(staticBits), if prefix >= 16 * i then prefix - 16 * i else 0, staticBits, 16 * i, prefix);
    }
  }

  /**
   * The loop of `get_random_v6_ip`: each group takes up to 16 of the
   * remaining static bits from the base address and the rest from the
   * random group in its place.
   */
  method KeepPrefix(base: seq<bv16>, random: seq<bv16>, prefix: nat) returns (addr: seq<bv16>)
    requires |base| == GROUPS && |random| == GROUPS
    ensures addr == MergedAddr(base, random, prefix)
  {
    var remaining := prefix;
    addr := random;
    var idx := 0;
    while idx < GROUPS
      invariant idx <= GROUPS && |addr| == GROUPS
      invariant remaining == if prefix >= 16 * idx then prefix - 16 * idx else 0
      invariant forall i :: idx <= i < GROUPS ==> addr[i] == random[i]
      invariant forall i :: 0 <= i < idx ==> addr[i] == MergedAddr(base, random, prefix)[i]
    {
      var staticBits := Min(remaining, 16);
      remaining := remaining - staticBits;
      var mask := MaskFor(staticBits);
      var merged := Merge(base[idx], addr[idx], mask);
      addr := addr[idx := merged];
      idx := idx + 1;
    }
  }

  /**
   * `get_random_v6_ip`: a block the regex refuses is `InvalidIPv6Format`, a
   * prefix shorter than 24 bits `InvalidIPv6Subnet`; otherwise the address
   * whose first `n` bits are those of the normalized block address and
   * whose other bits are those of `random`.
   */
  method GetRandomV6Ip(ip: string, random: seq<bv16>) returns (r: Result<seq<bv16>, VideoError>)
    requires |random| == GROUPS
    ensures r == Err(InvalidIPv6Format) <==> !Ipv6RegexMatch(ip)
    ensures r == Err(InvalidIPv6Subnet) <==> Ipv6RegexMatch(ip) && PrefixLen(ip) < 24
    ensures r.Ok? ==> Ipv6RegexMatch(ip) && 24 <= PrefixLen(ip) <= 128 && |r.value| == GROUPS
    ensures r.Ok? ==> forall i :: 0 <= i < GROUPS ==>
      KeepsPrefix(r.value[i], ToBits(Normalized(AddrPart(ip)))[i], random[i], 16 * i, PrefixLen(ip))
  {
    var formatAttr := Split(ip, "/");
    if !Ipv6RegexMatch(ip) || |formatAttr| < 2 {
      return Err(InvalidIPv6Format);
    }
    var rawAddr, rawMask := formatAttr[0], formatAttr[1];
    MaskParses(rawMask);
    var parsed := ParseUnsigned(rawMask, U8_MAX);
    if parsed.None? || !(24 <= parsed.value <= 128) {
      return Err(InvalidIPv6Subnet);
    }
    var base := NormalizeIp(rawAddr);
    var randomAddr := KeepPrefix(ToBits(base), random, parsed.value);
    MergedAddrKeepsPrefix(ToBits(base), random, parsed.value);
    return Ok(randomAddr);
  }
}
