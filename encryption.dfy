/**
 * `Encryption` (src/stream/encryption.rs): the HLS `EXT-X-KEY` tag turned
 * into a decryption recipe, and the dispatch that decrypts a segment with
 * it. Only AES-128 with the `identity` key format is supported; its IV is
 * either given in the tag or, following section 5.2 of RFC 8216, the
 * segment's media sequence number as a 128-bit big-endian integer.
 */
module HlsEncryption {
  import opened Wrappers
  import opened Text
  import opened Errors
  import opened Remote

  /** `m3u8_rs::Key`, with the method (`keyMethod`) as its `to_string()` text. */
  datatype Key = Key(keyMethod: string, uri: Option<string>, iv: Option<string>, keyformat: Option<string>)

  /** `Encryption`; Rust's `Encryption::None` is `Unencrypted` here. */
  datatype Encryption = Unencrypted | Aes128(keyUri: string, iv: seq<byte>) | SampleAes

  const IV_LENGTH: nat := 16
  /** `std::mem::size_of_val(&seq)` for a `u64` */
  const SEQUENCE_BYTES: nat := 8

  // ---------------------------------------------------------------------
  // The IV taken from the media sequence number
  // ---------------------------------------------------------------------

  function Pow256(n: nat): (p: nat)
    ensures p >= 1
  {
    if n == 0 then 1 else 256 * Pow256(n - 1)
  }

  /** The number a big-endian byte string denotes. */
  function BeValue(b: seq<byte>): nat {
    if b == [] then 0 else BeValue(b[..|b| - 1]) * 256 + b[|b| - 1] as nat
  }

  /** The low `n` bytes of `x`, most significant first (`to_be_bytes` when `n` is the width). */
  function BeBytes(x: nat, n: nat): (b: seq<byte>)
    ensures |b| == n
  {
    if n == 0 then [] else BeBytes(x / 256, n - 1) + [(x % 256) as byte]
  }

  function ZeroBytes(n: nat): (b: seq<byte>)
    ensures |b| == n && forall i :: 0 <= i < n ==> b[i] == 0
  {
    if n == 0 then [] else ZeroBytes(n - 1) + [0]
  }

  /** `iv[(16 - 8)..].copy_from_slice(&seq.to_be_bytes())` on a zeroed `iv`. */
  function SequenceIv(mediaSeq: nat): (iv: seq<byte>)
    ensures |iv| == IV_LENGTH
    ensures forall i :: 0 <= i < IV_LENGTH - SEQUENCE_BYTES ==> iv[i] == 0
  {
    ZeroBytes(IV_LENGTH - SEQUENCE_BYTES) + BeBytes(mediaSeq, SEQUENCE_BYTES)
  }

  /** A `u64` media sequence number reads back from the low eight bytes of its IV. */
  lemma SequenceIvReadsBack(mediaSeq: nat)
    requires mediaSeq <= U64_MAX
    ensures BeValue(SequenceIv(mediaSeq)[IV_LENGTH - SEQUENCE_BYTES..]) == mediaSeq
  {
    assert SequenceIv(mediaSeq)[IV_LENGTH - SEQUENCE_BYTES..] == BeBytes(mediaSeq, SEQUENCE_BYTES);
    assert Pow256(SEQUENCE_BYTES) == U64_MAX + 1;
    BeBytesValue(mediaSeq, SEQUENCE_BYTES);
  }

  /** Distinct `u64` sequence numbers give distinct IVs. */
  lemma SequenceIvInjective(a: nat, b: nat)
    requires a <= U64_MAX && b <= U64_MAX && SequenceIv(a) == SequenceIv(b)
    ensures a == b
  {
    SequenceIvReadsBack(a);
    SequenceIvReadsBack(b);
  }

  lemma {:induction false} BeBytesValue(x: nat, n: nat)
    requires x < Pow256(n)
    ensures BeValue(BeBytes(x, n)) == x
  {
    if n > 0 {
      QuotientBound(x, Pow256(n - 1));
      BeBytesValue(x / 256, n - 1);
      var b := BeBytes(x, n);
      assert b[..|b| - 1] == BeBytes(x / 256, n - 1);
    }
  }

  lemma QuotientBound(x: nat, p: nat)
    requires x < 256 * p
    ensures x / 256 < p
  {
  }

  // ---------------------------------------------------------------------
  // The IV given in the tag
  // ---------------------------------------------------------------------

  /** `hex::decode_to_slice` into 16 bytes: exactly 32 hex digits, two per byte. */
  function HexDecode16(s: string): (r: Option<seq<byte>>)
    ensures r.Some? <==> |s| == 2 * IV_LENGTH && AllHex(s)
    ensures r.Some? ==> (|r.value| == IV_LENGTH
      && forall i :: 0 <= i < IV_LENGTH ==>
           r.value[i] as nat == 16 * HexDigitValue(s[2 * i]).value + HexDigitValue(s[2 * i + 1]).value)
  {
    if |s| == 2 * IV_LENGTH && AllHex(s) then
      Some(seq(IV_LENGTH, i requires 0 <= i < IV_LENGTH =>
        (16 * HexDigitValue(s[2 * i]).value + HexDigitValue(s[2 * i + 1]).value) as byte))
    else None
  }

  /** The tag's IV text: every leading `0x` dropped, the rest decoded. */
  function ParseIv(text: string): (r: Option<seq<byte>>)
    ensures r.Some? ==> |r.value| == IV_LENGTH
  {
    HexDecode16(TrimStartMatches(text, "0x"))
  }

  /** Lower-case hexadecimal digit. */
  function HexDigitChar(d: nat): (c: char)
    requires d < 16
    ensures HexDigitValue(c) == Some(d)
  {
    if d < 10 then (d + '0' as int) as char else (d - 10 + 'a' as int) as char
  }

  /** One byte as two lower-case hex digits, the high one first. */
  function ByteHex(x: byte): (s: string)
    ensures |s| == 2 && HexDigitValue(s[0]) == Some(x as nat / 16) && HexDigitValue(s[1]) == Some(x as nat % 16)
  {
    [HexDigitChar(x as nat / 16), HexDigitChar(x as nat % 16)]
  }

  /** Two lower-case hex digits per byte, as an IV is written in a playlist. */
  function HexString(b: seq<byte>): (s: string)
    ensures |s| == 2 * |b|
  {
    if b == [] then "" else ByteHex(b[0]) + HexString(b[1..])
  }

  /** Byte `i` is written at positions `2 i` and `2 i + 1`. */
  lemma {:induction false} HexStringAt(b: seq<byte>, i: nat)
    requires i < |b|
    ensures HexString(b)[2 * i] == ByteHex(b[i])[0] && HexString(b)[2 * i + 1] == ByteHex(b[i])[1]
  {
    if i > 0 {
      HexStringAt(b[1..], i - 1);
      assert HexString(b) == ByteHex(b[0]) + HexString(b[1..]);
    }
  }

  /** A 16-byte IV written as `0x` and 32 hex digits, or without the `0x`, reads back as itself. */
  lemma IvTextRoundTrip(iv: seq<byte>)
    requires |iv| == IV_LENGTH
    ensures ParseIv("0x" + HexString(iv)) == Some(iv)
    ensures ParseIv(HexString(iv)) == Some(iv)
  {
    var h := HexString(iv);
    HexStringHasNoPrefix(iv);
    assert ("0x" + h)[2..] == h;
    HexStringDecodes(iv);
  }

  lemma HexStringHasNoPrefix(b: seq<byte>)
    requires |b| >= 1
    ensures TrimStartMatches(HexString(b), "0x") == HexString(b)
  {
    var h := HexString(b);
    HexStringAt(b, 0);
    assert h[1] != 'x' by {
      assert HexDigitValue(h[1]).Some?;
    }
    assert !StartsWith(h, "0x") by {
      assert h[..2][1] == h[1];
    }
  }

  lemma HexStringIsHex(b: seq<byte>)
    ensures AllHex(HexString(b))
  {
    var h := HexString(b);
    forall k | 0 <= k < |h|
      ensures HexDigitValue(h[k]).Some?
    {
      var i := k / 2;
      HexStringAt(b, i);
      if k % 2 == 0 {
        assert h[k] == h[2 * i];
      } else {
        assert h[k] == h[2 * i + 1];
      }
    }
  }

  lemma HexStringDecodes(iv: seq<byte>)
    requires |iv| == IV_LENGTH
    ensures HexDecode16(HexString(iv)) == Some(iv)
  {
    var h := HexString(iv);
    HexStringIsHex(iv);
    var r := HexDecode16(h).value;
    forall i | 0 <= i < IV_LENGTH
      ensures r[i] == iv[i]
    {
      HexStringAt(iv, i);
    }
    assert r == iv;
  }

  // ---------------------------------------------------------------------
  // Encryption::new
  // ---------------------------------------------------------------------

  /**
   * `Encryption::new(key, base_url, seq)`, with URL resolution as `resolve`.
   * The arms are tried in the source's order: `NONE`, then `AES-128`
   * (which needs a URI, an `identity` key format if any, a resolvable URI
   * and a decodable IV if one is given), then `SAMPLE-AES`, then anything
   * else.
   */
  function New(key: Key, baseUrl: string, mediaSeq: nat, resolve: (string, string) -> Option<string>): (r: Result<Encryption, VideoError>)
    ensures key.keyMethod == "NONE" <==> r == Ok(Unencrypted)
    ensures key.keyMethod == "AES-128" && key.uri.None? ==> r == Err(EncryptionError("No URI found for AES-128 key"))
    ensures key.keyMethod == "AES-128" && key.uri.Some? && key.keyformat.Some? && key.keyformat.value != "identity"
      ==> r == Err(EncryptionError("Invalid keyformat: " + key.keyformat.value))
    ensures key.keyMethod == "SAMPLE-AES" ==> r == Err(EncryptionError("Unimplemented encryption method: " + key.keyMethod))
    ensures key.keyMethod !in {"NONE", "AES-128", "SAMPLE-AES"} ==> r == Err(EncryptionError("Invalid encryption method: " + key.keyMethod))
    ensures r.Ok? ==> !r.value.SampleAes?
    ensures r.Ok? && r.value.Aes128? ==> (key.keyMethod == "AES-128" && key.uri.Some?
      && Some(r.value.keyUri) == resolve(baseUrl, key.uri.value) && |r.value.iv| == IV_LENGTH
      && (key.iv.None? ==> r.value.iv == SequenceIv(mediaSeq))
      && (key.iv.Some? ==> Some(r.value.iv) == ParseIv(key.iv.value)))
    ensures r == Err(HexError) <==> (key.keyMethod == "AES-128" && key.uri.Some?
      && (key.keyformat.None? || key.keyformat.value == "identity")
      && resolve(baseUrl, key.uri.value).Some? && key.iv.Some? && ParseIv(key.iv.value).None?)
    ensures key.keyMethod == "AES-128" && key.uri.Some? && (key.keyformat.None? || key.keyformat.value == "identity")
            && resolve(baseUrl, key.uri.value).None?
      ==> r == Err(URLParseError)
    ensures key.keyMethod == "AES-128" && key.uri.Some? && (key.keyformat.None? || key.keyformat.value == "identity")
            && resolve(baseUrl, key.uri.value).Some? && (key.iv.None? || ParseIv(key.iv.value).Some?)
      ==> r == Ok(Aes128(resolve(baseUrl, key.uri.value).value,
                         if key.iv.None? then SequenceIv(mediaSeq) else ParseIv(key.iv.value).value))
  {
    if key.keyMethod == "NONE" then Ok(Unencrypted)
    else if key.keyMethod == "AES-128" then
      if key.uri.None? then Err(EncryptionError("No URI found for AES-128 key"))
      else if key.keyformat.Some? && key.keyformat.value != "identity" then
        Err(EncryptionError("Invalid keyformat: " + key.keyformat.value))
      else
        var uri := MakeAbsoluteUrl(resolve, baseUrl, key.uri.value);
        if uri.Err? then Err(uri.error)
        else if key.iv.Some? then
          var iv := ParseIv(key.iv.value);
          if iv.None? then Err(HexError) else Ok(Aes128(uri.value, iv.value))
        else Ok(Aes128(uri.value, SequenceIv(mediaSeq)))
    else if key.keyMethod == "SAMPLE-AES" then Err(EncryptionError("Unimplemented encryption method: " + key.keyMethod))
    else Err(EncryptionError("Invalid encryption method: " + key.keyMethod))
  }

  /** Two segments under the same AES-128 key tag without an IV get distinct IVs. */
  lemma DerivedIvsDiffer(key: Key, baseUrl: string, a: nat, b: nat, resolve: (string, string) -> Option<string>)
    requires a <= U64_MAX && b <= U64_MAX && a != b && key.iv.None?
    requires New(key, baseUrl, a, resolve).Ok? && New(key, baseUrl, a, resolve).value.Aes128?
    ensures New(key, baseUrl, b, resolve).Ok? && New(key, baseUrl, b, resolve).value.Aes128?
    ensures New(key, baseUrl, a, resolve).value.iv != New(key, baseUrl, b, resolve).value.iv
  {
    if SequenceIv(a) == SequenceIv(b) {
      SequenceIvInjective(a, b);
    }
  }

  // ---------------------------------------------------------------------
  // Encryption::decrypt
  // ---------------------------------------------------------------------

  /**
   * `Encryption::decrypt`, with the key download as `fetchKey` and
   * AES-128-CBC with PKCS#7 padding as `aesCbc(key, iv, data)`. The source
   * slices the key body with `[..16]`, which panics on a shorter body, and
   * calls `unimplemented!()` for `SampleAes`; both are preconditions here.
   */
  function Decrypt(e: Encryption, data: seq<byte>, fetchKey: string -> Result<seq<byte>, VideoError>,
                   aesCbc: (seq<byte>, seq<byte>, seq<byte>) -> Result<seq<byte>, string>): (r: Result<seq<byte>, VideoError>)
    requires !e.SampleAes?
    requires e.Aes128? && fetchKey(e.keyUri).Ok? ==> |fetchKey(e.keyUri).value| >= 16
    ensures e.Unencrypted? ==> r == Ok(data)
    ensures e.Aes128? && fetchKey(e.keyUri).Err? ==> r == Err(fetchKey(e.keyUri).error)
    ensures e.Aes128? && fetchKey(e.keyUri).Ok? ==>
      var plain := aesCbc(fetchKey(e.keyUri).value[..16], e.iv, data);
      (plain.Err? ==> r == Err(DecryptionError(plain.error))) && (plain.Ok? ==> r == Ok(plain.value))
  {
    match e
    case Unencrypted => Ok(data)
    case Aes128(keyUri, iv) =>
      var body := fetchKey(keyUri);
      if body.Err? then Err(body.error)
      else
        var key := body.value[..16];
        match aesCbc(key, iv, data)
        case Err(message) => Err(DecryptionError(message))
        case Ok(plain) => Ok(plain)
  }
}
