# rusty_ytdl core, modelled in Dafny

This project models the deterministic core of `rusty_ytdl`, a Rust library and command-line tool that fetches YouTube video information and downloads streams. It covers the part between "the page data has been fetched" and "the bytes are handed to the caller":

- **Format catalogue and selection**: mime-type parsing, format flags, `filter_formats`, `choose_format` and the multi-key descending comparator behind `sort_formats*`.
- **Player-script handling**: `cut_after_js` (a bracket, string, comment and regex-literal scanner), `between`, `extract_functions`, and the `decipher`/`ncode` rewrite of download URLs. The JavaScript evaluator is a parameter.
- **Identifier, time, IP and string helpers**: `validate_id`, `get_video_id`, `time_to_ms`, `normalize_ip`, the prefix merge of `get_random_v6_ip`, and the character-indexed `substring`, `substr` and `slice`.
- **Download state machines**: the byte-range cursor of `NonLiveStream::chunk` and the deduplicating FIFO segment queue of `LiveStream`. The non-live cursor has two versions: the newer one in `src/stream/streams/non_live.rs` and the older one in `src/stream/stream.rs`. They differ in how they treat an error status, and in whether they rewind once the content is exhausted. The older copy of the live stream in `src/stream/stream.rs` behaves like the newer one, so one class models both. Also modelled: HLS segment ordering and ids, the byte-range header, and key/IV selection, where section 5.2 of RFC 8216 derives the IV from the media sequence number.
- **Small parsers and mappers**: the CLI output-level parser and field selection, storyboard specs, related videos, innertube key and client-version scraping, embed URLs, playlist URL normalisation and paging, `get_m3u8`, playability errors, and the ffprobe name mapping.

Each module is one `.dfy` file directly under this directory.

- **Code that updates state step by step is imperative Dafny.** Examples are the stream cursors, the segment queue, the `cut_after_js` loop, the `time_to_ms` accumulator, the IPv6 loops, the caches of `set_download_url`, the playlist paging loop and the serializer's entry writer. Each such method is proved against a specification function.
- **Code made of expressions is written as functions and lemmas.** The modules `Text` and `UrlForm` restate the Rust standard library and `url` crate operations the core relies on: `find`, `split`, `trim`, `replace`, number parsing and query appending. They carry no rows of their own.
- **I/O is passed in as parameters.** These are the HTTP client, the JavaScript evaluator, URL and query parsing, AES, ffprobe and the clock. Integers are unbounded unless the source's width matters; there the width is written out.

## Model

| member | source | states |
|---|---|---|
| Duration.TimeToMs | src/utils.rs:1279-1286 | `time_to_ms` returns 1000 times the base-60 value of the `:`-separated fields, the rightmost field counting in seconds; at most six fields (beyond that `u32::pow` overflows) |
| Duration.SumFields | src/utils.rs:1280-1283 | the accumulation loop over the reversed, enumerated fields ends with the positional base-60 value of the field values |
| Duration.AddField | src/utils.rs:1282 | one round adds field `i` (counted from the right) times `60^i` to the accumulator |
| Duration.FieldValue | src/utils.rs:1282 | a field that does not parse as an unsigned number counts 0; otherwise it counts its value |
| Duration.SumOfLastIsSexagesimal | src/utils.rs:1281-1283 | the sum of every digit weighted by `60^i` from the right equals the digits read in base 60 |
| Duration.UnparsableFieldCountsZero | src/utils.rs:1282 | replacing an unparsable field by `0` does not change the total |
| Duration.ThreeFieldTime | src/utils.rs:1279-1286 | `h:m:s` (fields free of `:`) gives `1000 * (3600 h + 60 m + s)` |
| Duration.ClockTime | src/utils.rs:1279-1286 | printing `h:m:s` in decimal and parsing it back gives `1000 * (3600 h + 60 m + s)` milliseconds |
| HlsEncryption.SequenceIv | src/stream/encryption.rs:44-54 | the derived IV is 16 bytes long and its first eight bytes are zero |
| HlsEncryption.SequenceIvReadsBack | src/stream/encryption.rs:50-54 | the last eight bytes of the derived IV read back, big-endian, as the `u64` media sequence number |
| HlsEncryption.SequenceIvInjective | src/stream/encryption.rs:50-54 | distinct `u64` sequence numbers give distinct IVs |
| HlsEncryption.BeBytesValue | src/stream/encryption.rs:53 | `to_be_bytes` of a number that fits reads back as that number |
| HlsEncryption.HexDecode16 | src/stream/encryption.rs:48 | decoding into 16 bytes succeeds iff the text is exactly 32 hex digits, and byte `i` is digits `2i` and `2i+1` |
| HlsEncryption.ParseIv | src/stream/encryption.rs:45-49 | a parsed IV is always 16 bytes |
| HlsEncryption.IvTextRoundTrip | src/stream/encryption.rs:45-49 | an IV written as 32 hex digits, with or without a leading `0x`, parses back to itself |
| HlsEncryption.HexStringHasNoPrefix | src/stream/encryption.rs:47 | stripping leading `0x` leaves hex text written without it unchanged |
| HlsEncryption.HexStringDecodes | src/stream/encryption.rs:48 | 32 hex digits written from 16 bytes decode back to those bytes |
| HlsEncryption.New | src/stream/encryption.rs:25-79 | `NONE` iff no encryption; `AES-128` without URI, with a non-`identity` keyformat, `SAMPLE-AES` and any other method are the source's `EncryptionError`s with their messages; an `AES-128` key with a URI and an absent or `identity` keyformat is `URLParseError` when the URI does not resolve, and otherwise, unless its IV fails to decode, exactly `Aes128` of the resolved key URI and the tag's 16-byte IV or the one derived from the sequence number; `HexError` iff the tag's IV does not decode |
| HlsEncryption.DerivedIvsDiffer | src/stream/encryption.rs:50-56 | under one AES-128 tag without IV, two segments with different sequence numbers get different IVs |
| HlsEncryption.Decrypt | src/stream/encryption.rs:82-101 | no encryption returns the data unchanged; a key download error is returned; otherwise the cipher runs with the first 16 bytes of the key body and its failure is a `DecryptionError` |
| StringUtils.Substr | src/structs.rs:618-647 | the character-counting loops cut exactly the characters `SubstrOf` names |
| StringUtils.Substring | src/structs.rs:576-616 | the loops cut exactly the characters `SubstringOf` names |
| StringUtils.Advance | src/structs.rs:591-605 | the character walk stops at `from + target` or at the end, and its byte offset is the UTF-8 length of the characters passed |
| StringUtils.Slice | src/structs.rs:649-660 | `slice` turns its bounds into a `substr` call: the start bound unchanged, an included end plus one, an open end the byte length |
| StringUtils.ByteLenAppend | src/structs.rs:654-658 | the UTF-8 length `str::len` of two joined strings is the sum of their lengths |
| StringUtils.AsciiByteLen | src/structs.rs:654-658 | an ASCII string has as many UTF-8 bytes as characters |
| StringUtils.SubstringSpec | src/structs.rs:576-616 | `substring(a, b)` equals `substring(b, a)` and is the characters from `min(a, b)` to `max(a, b)`, clipped to the string |
| StringUtils.SubstrOf | src/structs.rs:618-647 | `substr(start, len)` has at most `len` characters, exactly `len` when they exist, none from the end on, and they are consecutive characters from `start` |
| StringUtils.SliceStartBoundIgnoresExclusion | src/structs.rs:650-653 | an excluded start bound cuts exactly like an included one |
| StringUtils.SliceOpenEndIsSuffix | src/structs.rs:654-658 | `slice(start..)` is the whole suffix, because the byte length is never below the character count |
| StringUtils.SliceInclusive | src/structs.rs:654-660 | `slice(a..=b)` is `substr(a, b - a + 1)`, and a reversed range has no result (the source's `usize` subtraction underflows) |
| Structs.OptionPair | src/structs.rs:759-776 | an option contributes its `flag value` pair iff it is set |
| Structs.Build | src/structs.rs:750-792 | `FFmpegArgs::build` is empty iff no option is set; otherwise it is the input arguments, the `-f`, `-af`, `-vf` pairs in that order, then `pipe:1` |
| Structs.BuildShape | src/structs.rs:750-792 | the built list starts with the six input arguments and ends with `pipe:1`, has length 7 plus two per set option, and the first set option's flag and value follow the input arguments |
| Structs.OnRequestSuccess | src/structs.rs:1034-1043 | 4xx and 5xx are transient, 2xx needs no retry, every other status is fatal (each an if-and-only-if) |
| Remote.RangeStart | src/stream/remote_data.rs:24 | the range starts at its offset, or at byte 0 when the offset is absent |
| Remote.RangeEnd | src/stream/remote_data.rs:24 | the last byte is `start + length - 1`, and `start` for lengths 0 and 1 |
| Remote.ByteRangeString | src/stream/remote_data.rs:22-27 | there is a header iff a range is stored, and it starts with `bytes=` |
| Remote.ByteRangeStringReadsBack | src/stream/remote_data.rs:22-27 | the header's two decimal numbers read back as the offset (0 when absent) and an end that covers `max(length, 1)` bytes |
| Remote.EmptyAndSingleByteRangesAgree | src/stream/remote_data.rs:24 | a length-0 and a length-1 range give the same header |
| Remote.MakeAbsoluteUrl | src/utils.rs:1267-1277 | resolving fails with `URLParseError` iff the resolver fails, and otherwise gives its URL |
| Remote.FetchRequest | src/stream/remote_data.rs:34-48 | the request goes to the stored URL and carries a `Range` header iff a range is stored, with the `byte_range_string` value |
| Remote.Fetch | src/stream/remote_data.rs:30-57 | transport errors pass through, a non-2xx status is `BodyCannotParsed`, and success (iff 2xx with a readable body) returns the body and the final URL |
| Segments.Url | src/stream/segment.rs:17-19 | a segment's URL is its data's URL |
| Segments.Cmp | src/stream/segment.rs:33-37 | `cmp` is `Less`, `Equal` or `Greater` exactly as `(discon_seq, seq)` compares lexicographically |
| Segments.PartialCmp | src/stream/segment.rs:27-31 | `partial_cmp` is always `Some(cmp)` |
| Segments.CmpIsTotalOrder | src/stream/segment.rs:27-37 | `cmp` is antisymmetric and transitive |
| Segments.CmpEqualIsNotEquality | src/stream/segment.rs:6-37 | two segments can be `Equal` under `cmp` and still differ under the derived `==` |
| Segments.Id | src/stream/segment.rs:22-24 | the id is `d`, ten digits, `s`, ten digits exactly when both numbers fit in ten digits, and then each number reads back from its place |
| Segments.IdIdentifiesKey | src/stream/segment.rs:22-37 | two segments have the same id iff `cmp` calls them equal |
| MediaFormats.Extension | src/stream/media_format.rs:98-112 | the extension of each format: MPEG-TS `ts`, fragmented MP4 `mp4`, AAC `m4a`, ADTS `aac`, MP3 `mp3`, AC-3 `ac3`, E-AC-3 `eac3`, WebVTT `vtt`, and `Unknown` falls back to `ts` |
| MediaFormats.ExtensionsDistinct | src/stream/media_format.rs:98-112 | only `MpegTs` and `Unknown` share an extension |
| MediaFormats.FromFormatName | src/stream/media_format.rs:85-91 | the name match never gives `Aac`, `Adts`, `Ac3` or `EAc3`, and gives `Unknown` iff the trimmed name is none of the four known names |
| MediaFormats.FormatNamesRecognised | src/stream/media_format.rs:85-91 | each of the four names, with whitespace around it, maps to its format |
| MediaFormats.Detect | src/stream/media_format.rs:55-95 | only a failure to drive ffprobe is an error; a failing exit or unparsable output is `Ok(Unknown)`; a known format needs a successful, parsed run |
| CipherExtract.CutOr | src/utils.rs:1083-1149 | the fallback applies exactly when the scanner finds no end; a found cut is used as is, and is a prefix of the text at least two characters long; a scanner panic is `None` |
| CipherExtract.RemoveNewlines | src/utils.rs:1092-1153 | the retained string has no newline |
| CipherExtract.HeadBytesFit | src/utils.rs:1063 | the byte offset `find` reports plus the byte length of the text found stays within the body's byte length |
| CipherExtract.SubBody | src/utils.rs:1063 | the `slice` after `find` starts at the character whose index is the found byte offset plus the head's byte length (less one for the helper object), and is empty past the end |
| CipherExtract.AsciiSubBody | src/utils.rs:1081 | when the body up to the end of the head is ASCII, the cut starts right after the head, less `back` |
| CipherExtract.WideCharShiftsCut | src/utils.rs:1081 | one two-byte character before an ASCII head moves the cut one character past the head |
| CipherExtract.WideCharDropsFunctionBody | src/utils.rs:1081-1083 | so a definition `NAME=function(a){return a}` after such a character loses its `{`, and the `{}` fallback replaces its body |
| CipherExtract.Manipulations | src/utils.rs:1051-1071 | the helper object is empty iff the name after `a=a.split("");` is empty or `var NAME={` does not occur; otherwise it is exactly `var NAME=` followed by the scanner's cut of the slice at the found byte offset (or `null` when the scanner finds no end), and `None` exactly where the scanner panics |
| CipherExtract.DecipherScript | src/utils.rs:1085-1092 | the decipher script holds no newline |
| CipherExtract.NcodeName | src/utils.rs:1103-1138 | a direct name without `[` is taken as is; a direct name with `[` is replaced by the text between `var PREFIX=[` (PREFIX its part before `[`) and `]`; when the name so found is empty the result is the last declaration the fallback pattern matches whose body mentions `enhanced_except_`, and an empty result means there is none |
| CipherExtract.NcodeScript | src/utils.rs:1151-1153 | the n-transform script holds no newline |
| CipherExtract.EntryList | src/utils.rs:1096 | an extractor pushes one `(name, script)` pair iff its entry was found, and none otherwise |
| CipherExtract.SkipWhitespace | src/utils.rs:1121 | `\s*` consumes the longest whitespace run |
| CipherExtract.SkipName | src/utils.rs:1121 | `[a-zA-Z0-9_$]+` consumes the longest name run |
| CipherExtract.DeclAt | src/utils.rs:1119-1124 | a match of the function-declaration pattern starts with `;`, ends with `{` and captures a non-empty name of name characters |
| CipherExtract.FunctionHeadAt | src/utils.rs:1121 | the `function(ARG)\s*{` tail of a match ends just after a `{` |
| CipherExtract.EnhancedNameSpec | src/utils.rs:1127-1135 | a match contributes a name iff its body up to the first `};` mentions `enhanced_except_`, and that name is the captured one |
| CipherExtract.LastNamedSpec | src/utils.rs:1126-1137 | the fold keeps the last position that yields a name, and keeps nothing iff no position does |
| CipherExtract.LastEnhancedSpec | src/utils.rs:1118-1138 | the fallback name is the captured name of the last enhanced match, and is empty iff there is no enhanced match |
| CipherExtract.LastNamedLoop | src/utils.rs:1126-1137 | the loop that overwrites the name at every qualifying match ends with the last such name |
| CipherExtract.NcodeFallbackName | src/utils.rs:1119-1137 | the `captures_iter` loop over the body ends with the fallback name |
| CipherExtract.ExtractFunctions | src/utils.rs:1047-1166 | `extract_functions` yields at most two entries: the decipher entry's name and script first, then the n-transform entry's, each present only when found; no body contains a newline; `None` iff the scanner would panic |
| CipherExtract.DecipherEntry | src/utils.rs:1073-1099 | a decipher entry is named by the non-empty text between its markers, its `NAME=function(a)` definition occurs in the body, and its script is exactly the helper object found through the cut definition, then `var NAME=function(a)` and the scanner's cut (or `{}`) of the slice starting at the found byte offset read as a character index, without newlines; with a name and a definition, the extraction panics iff the scanner panics on the definition or on the helper object |
| CipherExtract.NcodeEntry | src/utils.rs:1102-1159 | an n-transform entry is named by the non-empty n-transform name, its `NAME=function(a)` definition occurs in the body, and its script is exactly `var NAME=function(a)` and the scanner's cut (or `{}`) of the slice starting at the found byte offset read as a character index, then `;`, without newlines; with a name and a definition, the extraction panics iff the scanner panics on the definition |
| CipherExtract.DecipherEntryPresence | src/utils.rs:1073-1099 | there is a decipher entry iff the name between `a.set("alr","yes");c&&(c=` and `(decodeURIC` is non-empty and `NAME=function(a)` occurs in the body |
| CipherExtract.NcodeScriptShape | src/utils.rs:1142-1153 | the n-transform script starts with `var NAME=function(a)` and ends with `;` |
| OutputLevels.FlagsAreDistinctBits | cli/src/args/output.rs:43-53 | the five flags are distinct single bits and `all()` is their union `0x19C` |
| OutputLevels.Pieces | cli/src/args/output.rs:59-61 | splitting always yields at least one piece |
| OutputLevels.PiecesHaveNoSeparator | cli/src/args/output.rs:61 | no piece contains whitespace, `,` or `\|` |
| OutputLevels.PiecesOfToken | cli/src/args/output.rs:61 | text without separators is a single piece |
| OutputLevels.PiecesOfSeparators | cli/src/args/output.rs:61-67 | text made only of separators splits into empty pieces |
| OutputLevels.PiecesAtSeparator | cli/src/args/output.rs:61 | splitting at a separator concatenates the pieces on either side |
| OutputLevels.TokenFlag | cli/src/args/output.rs:69-79 | a known token names a non-empty set of declared flags |
| OutputLevels.StepCombine | cli/src/args/output.rs:64-82 | one fold step after two joined runs equals joining with the step applied to the second run |
| OutputLevels.ParseConcat | cli/src/args/output.rs:64-84 | reading two runs of tokens: the first error wins, otherwise the levels are OR-ed |
| OutputLevels.ParseWithinAll | cli/src/args/output.rs:64-84 | a parsed level holds only declared flags |
| OutputLevels.OrderInsensitive | cli/src/args/output.rs:64-84 | swapping two runs of tokens keeps success and the level |
| OutputLevels.DuplicateInsensitive | cli/src/args/output.rs:64-84 | repeating the tokens changes nothing |
| OutputLevels.EmptyPieceIgnored | cli/src/args/output.rs:65-67 | an empty piece anywhere is skipped |
| OutputLevels.AllEmptyPieces | cli/src/args/output.rs:62-67 | only empty pieces read as the empty level |
| OutputLevels.SeparatorsOnly | cli/src/args/output.rs:58-85 | an empty or separator-only option is `Ok(empty)` |
| OutputLevels.SingleToken | cli/src/args/output.rs:69-79 | one token reads as its flag, and an unknown one is an error naming that token |
| OutputLevels.LevelOf | cli/src/args/output.rs:58-85 | a parsed level holds only declared flags; an error names a non-empty piece of the split text that is no known token |
| OutputLevels.ParseErrorIsUnknownPiece | cli/src/args/output.rs:64-84 | a failed fold names one of its pieces, a non-empty one that is no known token |
| OutputLevels.FromStr | cli/src/args/output.rs:58-85 | `from_str` returns the fold of the tokens of the trimmed, split text, and a success holds only declared flags |
| OutputLevels.FoldTokens | cli/src/args/output.rs:64-84 | the loop over the pieces returns the fold of the pieces |
| OutputLevels.ParseFormat | cli/src/args/output.rs:113-114 | for text without JSON escapes, a parsed format is the one whose kebab-case name is the text (escape decoding is listed under Left out) |
| OutputLevels.FormatNameRoundTrip | cli/src/args/output.rs:8-95 | every format's name reads back as that format, and the `--output` default `pretty-json` is `OutputFormat::default()` |
| Formats.CodecList | src/structs.rs:712-715 | no `codecs` parameter gives no codecs; otherwise at least one codec, and the codecs joined with `", "` are the parameter |
| Formats.MimeTypeOf | src/structs.rs:698-739 | the parsed mime type keeps the mime text; the container is the subtype; the codecs are empty iff there is no parameter; the video codec is the first codec, and only for `video/*` with codecs; the audio codec is the first codec for `audio/*` and otherwise the second |
| Formats.MimeTypeRoundTrip | src/structs.rs:682-739 | serialising a non-empty codec list of comma-free codecs and reading it back gives the same codecs |
| Formats.EmptyCodecsReadBackAsOne | src/structs.rs:682-715 | an empty codec list is written as `codecs=""` and read back as one empty codec |
| Formats.FromStreamingData | src/structs.rs:369-406 | the conversion starts every flag false, defaults a missing URL, itag and bitrate, and copies the mime type, quality label and audio fields |
| Formats.AddFormatMeta | src/utils.rs:104-130 | `add_format_meta` changes only the five flags and only raises them: video iff a quality label exists, audio iff an audio bitrate or quality exists, live, HLS and DASH iff the URL matches the source's patterns |
| Formats.LiveMarkerAt | src/utils.rs:105-106 | a match of the live-broadcast pattern lies inside the URL |
| Formats.LiveMarkerText | src/utils.rs:105-106 | a match of the live-broadcast pattern is `source/yt_live_broadcast` or `source=yt_live_broadcast` |
| Formats.LiveUrlHasMarker | src/utils.rs:105-106 | a URL the live pattern matches contains `source/yt_live_broadcast` or `source=yt_live_broadcast` |
| Formats.IsHlsUrl | src/utils.rs:107-108 | a URL the HLS pattern matches contains `/manifest/hls_` |
| Formats.IsDashUrl | src/utils.rs:109 | a URL the DASH pattern matches contains `/manifest/` |
| Formats.AddFormatMetaIdempotent | src/utils.rs:104-130 | deriving the flags twice gives what deriving them once gives |
| Formats.ConvertedFormatFlags | src/structs.rs:369-406 | a freshly converted format gets exactly the flags its fields and URL call for |
| Formats.SearchFilterEqIsEquivalence | src/structs.rs:54-70 | filter equality is reflexive, symmetric and transitive, and never equates filters of different kinds |
| Formats.QualityEqIsEquivalence | src/structs.rs:111-130 | quality equality is reflexive, symmetric and transitive |
| Formats.SearchFilterEq | src/structs.rs:54-67 | the four filter kinds are equal to themselves only, and custom filters are equal iff they share their comparator |
| Formats.QualityEq | src/structs.rs:111-127 | the six fixed qualities are equal to themselves only; custom qualities are equal iff they share their comparator and their filters are equal |
| Formats.DefaultVideoOptions | src/structs.rs:141-150 | the default options pick `Highest` with the `Audio` filter, no chunk size and empty request options |
| Formats.VideoOptionsEq | src/structs.rs:130-139 | options that differ only in their request options are equal, and equal options have the same download options |
| Formats.FilterFormats | src/utils.rs:133-148 | every kept format is an input format the filter accepts (or a live one), every accepted input is kept, and the list never grows |
| Formats.FilterFormatsSpec | src/utils.rs:133-148 | `filter_formats` keeps exactly the formats the filter accepts or that are live, in order; it distributes over concatenation and is idempotent |
| Formats.AsI32 | src/utils.rs:257-328 | `as i32` gives a value in the `i32` range, equal to the input when it fits and congruent to it modulo 2^32 |
| Formats.EncodingRank | src/utils.rs:259-348 | the rank is the first position whose name occurs in the joined codecs, and -1 iff none does |
| Formats.IntRunEnd | src/constants.rs:41-42 | a sign-and-digits run is non-empty and stays within the text |
| Formats.DigitsEnd | src/constants.rs:41-42 | `[0-9]+` consumes the longest digit run |
| Formats.SpacesEnd | src/constants.rs:41-42 | `\s*` consumes the longest whitespace run |
| Formats.LeadingIntMatch | src/constants.rs:41-42 | a match of the leading-integer pattern is a non-empty span at or after the search position |
| Formats.DigitLabelRank | src/utils.rs:246-325 | a digits-only label that fits in `i32` ranks at its value |
| Formats.HlsSortsFirst | src/utils.rs:296-302 | `sort_formats` puts an HLS format before a non-HLS one |
| Formats.HlsOnlyAfterHls | src/utils.rs:296-302 | a format that may precede an HLS format is itself HLS |
| Formats.MuxedSortsBeforeSingleTrack | src/utils.rs:296-304 | with the same HLS and DASH flags, a format with video and audio sorts before one without both |
| Formats.ChooseFormat | src/utils.rs:152-225 | `choose_format` returns `Chosen`: filter, drop non-HLS live formats when HLS exists, sort, then the quality tier's first or last element, or `FormatNotFound` |
| Formats.SortedPool | src/utils.rs:156-165 | the filter, the HLS pruning and the sort produce the sorted pool |
| Formats.PickTier | src/utils.rs:166-224 | each quality tier re-filters and, for the audio, video and custom tiers, re-sorts with its own keys, and says whether it takes the first or the last element |
| Formats.PoolMembers | src/utils.rs:156-165 | every element of the sorted pool is an input format that passes the filter, and is HLS or not live when the filtered list holds an HLS format |
| Formats.TierMembers | src/utils.rs:166-224 | whatever a tier picks from is in the sorted pool and passes the tier's filter |
| Formats.ChosenIsCandidate | src/utils.rs:152-225 | a chosen format is an input format that passes both the options' filter and the tier's filter |
| Formats.Chosen | src/utils.rs:152-225 | `FormatNotFound` is returned iff the tier's list is empty, it is the only error, and a success is an element of that list |
| Formats.RefilterIsNoOp | src/utils.rs:159-175 | re-filtering the sorted pool with the same filter changes nothing |
| Formats.HighestIsFirstBest | src/utils.rs:165-173 | `Highest` picks the earliest pool element that no other element outranks, because the sort is stable |
| Formats.LowestIsLastWorst | src/utils.rs:165-180 | `Lowest` picks the latest pool element that outranks no other element |
| Formats.AudioTierAfterMuxedFilterIsLive | src/utils.rs:159-187 | with the `VideoAudio` filter, `HighestAudio` can only return a live format |
| Ranking.IntCmp | src/utils.rs:234 | `i32::cmp` is `Less` iff smaller and `Greater` iff larger |
| Ranking.CmpBy | src/utils.rs:228-237 | a larger first key sorts first and a smaller one sorts last |
| Ranking.CmpBySpec | src/utils.rs:228-237 | `sort_formats_by` is `Equal` iff every key agrees; otherwise the first differing key decides, the larger value first (each an if-and-only-if) |
| Ranking.CmpByEqualSpec | src/utils.rs:232-236 | `Equal` iff all keys agree |
| Ranking.CmpByLessSpec | src/utils.rs:232-236 | `Less` iff some key is larger for the first argument and all earlier keys agree |
| Ranking.CmpByFlip | src/utils.rs:228-237 | swapping the arguments turns `Greater` into `Less` and keeps `Equal` |
| Ranking.CmpByReflexive | src/utils.rs:228-237 | every format ties with itself |
| Ranking.NotAfterTransitive | src/utils.rs:228-237 | "not after" is transitive, so the comparator is a total preorder, as `sort_by` requires |
| Ranking.Filter | src/utils.rs:136-162 | the kept elements are elements of the list that pass, none is longer than the list, and every passing element is kept |
| Ranking.FilterAppend | src/utils.rs:136-145 | `retain` on a concatenation retains on each half, so order is kept |
| Ranking.FilterKeepsAll | src/utils.rs:136-145 | a list whose elements all pass is kept whole |
| Ranking.FilterIdempotent | src/utils.rs:136-145 | retaining twice with the same test is retaining once |
| Ranking.Retain | src/utils.rs:136-162 | the `Vec::retain` walk returns the filtered list |
| Ranking.Insert | src/utils.rs:165 | inserting adds exactly one element to the list's multiset |
| Ranking.Sort | src/utils.rs:165-277 | the stable sort is a permutation of its input |
| Ranking.SortBy | src/utils.rs:165-277 | the insertion loop of `sort_by` returns the stable sort |
| Ranking.InsertSorted | src/utils.rs:165 | inserting into a sorted list keeps it sorted |
| Ranking.SortSorted | src/utils.rs:165-277 | the sort's result is sorted under the comparator |
| Ranking.FirstBest | src/utils.rs:170 | the first best element is a position of the list |
| Ranking.LastWorst | src/utils.rs:177 | the last worst element is a position of the list |
| Ranking.FirstBestSpec | src/utils.rs:165-172 | the first best element may precede every element, and every earlier element is strictly worse |
| Ranking.LastWorstSpec | src/utils.rs:165-179 | every element may precede the last worst element, and every later element is strictly better |
| Ranking.SortHead | src/utils.rs:165-172 | the head of the stable sort is the first best element |
| Ranking.SortLast | src/utils.rs:165-179 | the last element of the stable sort is the last worst element |
| Info.NewWithOptions | src/info.rs:71-126 | an unrecognised identifier is `VideoNotFound`; otherwise a client failure is returned; success iff both succeed, with a valid id, the options, and `max_retries` or its default |
| Info.VideoUrl | src/info.rs:498-500 | the video URL is the watch-page base followed by the id |
| Info.WatchUrlRoundTrip | src/info.rs:71-126 | a handle made from a video's watch URL has the same id and the same URL |
| Info.NewWithOptionsKeepsId | src/info.rs:76-125 | the handle keeps the id `get_video_id` finds |
| Info.WatchUrlGivesId | src/utils.rs:579-590 | the watch URL of a valid id yields that id through its `v` parameter |
| Info.UrlIdFromQuery | src/utils.rs:579-641 | a trimmed http(s) URL whose query holds `v=<id>` yields that id |
| Info.PlayerResponseError | src/utils.rs:961-976 | a reason is reported iff the playability status has a reason in the list, and it is that reason |
| Info.IsPlayError | src/utils.rs:947-958 | a play error needs a playability status; no statuses never match, and a single status matches iff it is the status |
| Info.IsPrivateVideo | src/utils.rs:979-986 | private iff the status is `LOGIN_REQUIRED` |
| Info.IsRental | src/utils.rs:913-930 | rental iff the status is `UNPLAYABLE` and the error screen has a rental offer; a rental is never private |
| Info.IsNotYetBroadcasted | src/utils.rs:933-944 | not yet broadcast iff the status is `LIVE_STREAM_OFFLINE` |
| Info.IsLive | src/utils.rs:652-659 | live iff the video details say `is_live_content` is true |
| Info.IsAgeRestricted | src/utils.rs:865-911 | age-restricted when the micro format says the video is not family-safe; otherwise iff the `isFamilyFriendly` meta is `false` or the `og:restrictions:age` meta is `18+` |
| Info.BasicInfoChecks | src/info.rs:174-225 | the checks of `get_basic_info` in order: `ERROR` is `VideoNotFound`, a "not a bot" reason is `VideoPlayerResponseError`, a private video that is not age-restricted is `VideoIsPrivate`; success iff every check and config request passes and the video is neither rental nor not yet broadcast |
| Info.ChecksFollowStatus | src/info.rs:174-186 | `VideoNotFound` implies status `ERROR`, and `VideoIsPrivate` implies `LOGIN_REQUIRED` without age restriction |
| Info.AgeRestrictedIsNotPrivate | src/info.rs:182-186 | an age-restricted video is never reported private |
| Info.ItagAt | src/info.rs:623-624 | a match of `/itag/(\d+)/` captures a non-empty digit run and occurs at that position |
| Info.FirstItag | src/info.rs:632 | the leftmost match is some match at or after the start, and there is none iff no position matches |
| Info.ItagLine | src/info.rs:626-636 | a line is kept iff it starts with `http://` or `https://` and holds an itag; the pair is its digit itag and the line itself |
| Info.ItagLinesOf | src/info.rs:626-637 | at most one pair per line, and each pair comes from an http(s) line of the input with a digit itag |
| Info.ItagLinesAppend | src/info.rs:626-637 | keeping lines works block by block, in order |
| Info.ItagLinesSingle | src/info.rs:626-637 | a single line gives its pair exactly when `ItagLine` accepts it |
| Info.GetM3u8 | src/info.rs:605-637 | a fetch error is returned; otherwise the pairs of the body's lines, split on `\n` |
| Info.M3u8OfLines | src/info.rs:620-637 | a body made of newline-free lines gives the pairs of those lines |
| Info.InfoFormats | src/info.rs:266-278 | the formats of `get_info` are a permutation of the basic and live formats and are sorted by `sort_formats` |
| Info.GetInfo | src/info.rs:266-279 | a failure of `get_basic_info` is returned; otherwise the info with the live formats appended and the list sorted |
| Info.HlsFormatsLead | src/info.rs:277 | in the sorted format list every HLS format comes before every non-HLS one |
| Info.StreamSetup | src/info.rs:295-365 | `stream`: no chosen format or an empty URL is `VideoSourceNotFound`; HLS gives a live stream, or `LiveStreamNotSupported` without the feature; a zero declared length is fetched, and its failure or absence is an error; a non-HLS format with a positive declared length, or with a fetched length, gives exactly the download of its URL with that length covering `[0, chunk size)`, and every download is of that form |
| Info.StreamReadsChosenFormat | src/info.rs:295-365 | the stream always reads one of the video's own formats, one that passes the filter |
| InfoExtras.FieldOr0 | src/info_extras.rs:741-772 | a missing `#`-field reads as `"0"` and a present one as itself |
| InfoExtras.NumField | src/info_extras.rs:741-770 | a numeric field is an `i32` |
| InfoExtras.MissingFieldIsZero | src/info_extras.rs:741-770 | a missing numeric field is 0 |
| InfoExtras.TruncDiv | src/info_extras.rs:776 | `i32` division truncates toward zero: the remainder is smaller than the divisor in magnitude and has the sign of the dividend |
| InfoExtras.SighPairs | src/info_extras.rs:772-774 | one `sigh` pair per storyboard part, carrying that part's eighth field or `"0"` |
| InfoExtras.UrlAfterPairs | src/info_extras.rs:732-774 | after `n` parts, the URL carries the first `n` `sigh` pairs appended to the base URL's query |
| InfoExtras.Boards | src/info_extras.rs:735-794 | one storyboard per part considered |
| InfoExtras.StoryboardsOf | src/info_extras.rs:721-800 | `get_storyboards` always returns `Some`: no spec gives no storyboards, and a spec gives one per `\|`-separated part after the base URL |
| InfoExtras.GetStoryboards | src/info_extras.rs:721-800 | the method returns `StoryboardsOf` |
| InfoExtras.BuildBoards | src/info_extras.rs:735-794 | the `map` over the parts builds the boards in order |
| InfoExtras.AddBoard | src/info_extras.rs:738-793 | one step appends the part's `sigh` pair to the shared URL and its board to the list |
| InfoExtras.BoardsSnoc | src/info_extras.rs:738-793 | the boards after `i + 1` parts are the boards after `i` parts followed by the next board |
| InfoExtras.NextBoard | src/info_extras.rs:739-792 | a step appends the `sigh` pair and builds the board from the updated URL |
| InfoExtras.BoardsAt | src/info_extras.rs:735-794 | board `i` of the list is the board built from part `i` |
| InfoExtras.StoryboardAt | src/info_extras.rs:735-794 | storyboard `i` has the part's six numbers (0 when missing or unparsable), the count divided by `columns * rows` with truncation, and a template URL in which `$L` is `i` and `$N` the seventh field, built from the URL holding all `sigh` pairs up to part `i` |
| InfoExtras.SighPairsNonEmpty | src/info_extras.rs:774 | every appended `sigh` pair is non-empty text |
| InfoExtras.FirstWord | src/info_extras.rs:138-154 | the first `' '`-separated word is a prefix without spaces |
| InfoExtras.FindRvs | src/info_extras.rs:116-124 | the position is that of the first related-video argument with the same id, and there is none iff no argument has that id |
| InfoExtras.AuthorUser | src/info_extras.rs:175-184 | the user is the last `/`-separated segment, free of `/` |
| InfoExtras.AuthorOf | src/info_extras.rs:217-250 | the user URL is set iff the user starts with `@` (and is the youtube.com URL of it); the channel URL is set iff the channel id is non-empty; the external channel URL equals the channel URL |
| InfoExtras.ParseRelatedVideo | src/info_extras.rs:81-363 | the view count has no `,`, the short view count has no space, the URL is the watch URL of the id iff the id is non-empty, and there is an author iff there is a browse endpoint |
| InfoExtras.ShortCountFromArgs | src/info_extras.rs:115-136 | a short view count that does not start with a digit is replaced by the first word of the matching argument's count |
| InfoExtras.ViewCountWord | src/info_extras.rs:138-154 | the view count is the first word of the view text when it starts with a digit, else of the short count, with every `,` removed |
| InfoExtras.AutoplayVideosAppend | src/info_extras.rs:62-73 | the autoplay videos of two blocks of contents are the two lists in order |
| InfoExtras.RelatedOfAppend | src/info_extras.rs:43-76 | the related videos of two blocks of results are the two lists in order |
| InfoExtras.RelatedOfSnoc | src/info_extras.rs:43-76 | one more result appends that result's videos |
| InfoExtras.RelatedCount | src/info_extras.rs:43-76 | there is one related video per compact video renderer, at the top level or inside an autoplay renderer |
| InfoExtras.AutoplayCount | src/info_extras.rs:62-73 | there is one autoplay video per content with a compact video renderer |
| InfoExtras.PushAutoplay | src/info_extras.rs:57-74 | the inner loop appends the autoplay videos of the contents |
| InfoExtras.PushResult | src/info_extras.rs:44-75 | one iteration appends the result's videos |
| InfoExtras.GetRelatedVideos | src/info_extras.rs:12-79 | `get_related_videos` is always `Some` of the videos of the results, in order |
| Ipv6.MaskParses | src/constants.rs:37-39 | a prefix length the pattern accepts, read with ASCII digits, is at most 128 and parses as a `u8` |
| Ipv6.GroupValue | src/utils.rs:1256-1260 | a group that does not parse as 16-bit hex counts 0, and otherwise counts its value |
| Ipv6.Expand | src/utils.rs:1253-1263 | the expanded address has eight groups |
| Ipv6.Normalized | src/utils.rs:1240-1264 | `normalize_ip` always gives eight groups |
| Ipv6.ExpandGroups | src/utils.rs:1253-1263 | the two filling loops, the second over the reversed end part, give `Expand` |
| Ipv6.NormalizeIp | src/utils.rs:1240-1264 | the method returns `Normalized` |
| Ipv6.Values | src/utils.rs:1256-1260 | one value per group text |
| Ipv6.ZeroGroups | src/utils.rs:1253 | `n` zero groups |
| Ipv6.ExpandLeft | src/utils.rs:1255-1257 | without an end part, the start groups are followed by zeros |
| Ipv6.ExpandBoth | src/utils.rs:1253-1263 | when the parts fit, the address is the start groups, zeros, then the end groups in their written order |
| Ipv6.NormalizeUncompressed | src/utils.rs:1240-1264 | an address without `::` is its groups padded with zeros on the right |
| Ipv6.NormalizeCompressed | src/utils.rs:1240-1264 | `head::tail` is the head groups, the missing zero groups, then the tail groups |
| Ipv6.ToBits | src/utils.rs:1231 | one 16-bit word per group |
| Ipv6.OneHot | src/utils.rs:1229 | `0x8000 >> j` has exactly one bit set |
| Ipv6.MergeOneHot | src/utils.rs:1231 | a single bit of the merge comes from the base where the mask has it, and from the random word elsewhere |
| Ipv6.MergeBit | src/utils.rs:1231 | each bit of `(base & mask) + (random & !mask)` is the base's bit under the mask and the random bit outside it |
| Ipv6.MaskFor | src/utils.rs:1229 | the mask `0xffff - (2^(16 - s) - 1)` has exactly its `s` leading bits set |
| Ipv6.Merge | src/utils.rs:1231 | each bit of the merged group is the base's bit where the mask is set and the random bit elsewhere |
| Ipv6.MergedGroupBits | src/utils.rs:1226-1233 | a merged group keeps the base's bits before the prefix length and the random bits after |
| Ipv6.StaticBits | src/utils.rs:1226-1227 | a group keeps at most 16 static bits |
| Ipv6.MergedAddr | src/utils.rs:1224-1234 | the merged address has eight groups |
| Ipv6.MergedAddrKeepsPrefix | src/utils.rs:1224-1234 | bit `16 i + j` of the result is the base's bit when it lies within the prefix, and the random bit otherwise |
| Ipv6.KeepPrefix | src/utils.rs:1224-1234 | the loop that spends the mask 16 bits at a time returns `MergedAddr` |
| Ipv6.GetRandomV6Ip | src/utils.rs:1199-1237 | `InvalidIPv6Format` iff the text does not match the pattern; `InvalidIPv6Subnet` iff it matches with a prefix below 24; otherwise eight groups that keep the normalised base address's first `prefix` bits and take the random bits after them |
| JsScan.CutAfterJs | src/utils.rs:1349-1410 | the byte loop with its nested string, regex and comment skips returns the machine's verdict `JsCut`: a prefix, `None`, or the out-of-bounds panic |
| JsScan.SkipQuoted | src/utils.rs:1368-1398 | the skip loop stops at the closing quote, honouring `\` escapes, and the scan resumes after it; running off the end is the panic |
| JsScan.ScanFoundIsPrefix | src/utils.rs:1358-1409 | a found cut is a prefix of the input, at least two characters long, and reaches past where the scan resumed |
| JsScan.CodeFoundIsPrefix | src/utils.rs:1358-1409 | the same from plain-code states |
| JsScan.QuotedFoundIsPrefix | src/utils.rs:1368-1376 | the same from inside a string or regex literal |
| JsScan.CommentFoundIsPrefix | src/utils.rs:1378-1385 | the same from inside a comment |
| JsScan.CutIsPrefix | src/utils.rs:1349-1410 | `cut_after_js` returns a prefix of its input of at least two characters |
| JsScan.ScanOnlyReadsCut | src/utils.rs:1358-1405 | the verdict depends only on the characters of the cut |
| JsScan.CodeReadsCut | src/utils.rs:1358-1405 | the same from plain-code states |
| JsScan.QuotedReadsCut | src/utils.rs:1368-1376 | the same from inside a literal |
| JsScan.CommentReadsCut | src/utils.rs:1378-1385 | the same from inside a comment |
| JsScan.CutIgnoresTail | src/utils.rs:1349-1410 | appending text after a found cut does not change it |
| JsScan.CutIdempotent | src/utils.rs:1349-1410 | cutting a cut gives the same cut |
| JsScan.CutNeedsOpeningAtStart | src/utils.rs:1358-1408 | input that does not start with a bracket, a quote or `/` gives `None` |
| JsScan.ScanSkipsLiteral | src/utils.rs:1368-1376 | a literal body without an unescaped closing quote is skipped whole, and the scan resumes after the quote |
| JsScan.ScanSkipsComment | src/utils.rs:1378-1385 | a comment body is skipped whole up to and including `*/` |
| JsScan.DepthStep | src/utils.rs:1365-1366 | one more character changes the bracket depth by +1 for an opener, -1 for a closer, and 0 otherwise |
| JsScan.PlainScan | src/utils.rs:1358-1405 | on text without quotes or `/`, the scan never panics, and a found cut ends at the first position where the depth returns to zero |
| JsScan.PlainStep | src/utils.rs:1362-1404 | one step of the loop in plain text moves to the next character with the depth of the prefix |
| JsScan.PlainCut | src/utils.rs:1349-1410 | on text without quotes or `/`, `cut_after_js` never panics; a cut is the shortest prefix whose brackets balance, and `None` means the first character closes the nesting or the brackets never balance |
| JsScan.BetweenSpec | src/utils.rs:1328-1344 | `between` is empty when `left` is absent; otherwise, when `right` follows, the text at the first `left` reads `left`, the result, `right`, and `right` does not occur earlier; when `right` does not follow it is empty |
| JsScan.FirstMarkerUpTo | src/utils.rs:1339-1340 | cutting the rest at the first `right` leaves no earlier `right` |
| Live.NumberedIncreasing | src/stream/streams/live.rs:89-95 | the `(discon_seq, seq)` pairs the refresh loop gives the playlist's segments strictly increase |
| Live.DisconCountGrows | src/stream/streams/live.rs:92-95 | the discontinuity offset never decreases along the playlist |
| Live.SegmentEncryption | src/stream/streams/live.rs:105-107 | a segment without `EXT-X-KEY` keeps the encryption in force, and a new key is never `SAMPLE-AES` |
| Live.TakeIn | src/stream/streams/live.rs:109-145 | a failing segment or map URL stops with the loop state untouched; otherwise a map tag sets the initialisation in force to its resolved URL and byte range, and no tag keeps it; a segment whose pair is already queued is skipped, and otherwise exactly one entry is appended, with that pair, the current encryption, the resolved URL and byte range, and the initialisation in force; `last_seg`, the encryption and the offset do not change here |
| Live.Refresh | src/stream/streams/live.rs:77-165 | a playlist that cannot be read or parsed is the error and changes nothing; a stop keeps `is_end` and the refresh time; a completed refresh sets the refresh time and raises `is_end` on `EXT-X-ENDLIST` |
| Live.DuplicateCheckNeverFires | src/stream/streams/live.rs:98-145 | a segment past `last_seg` is never in the queue already, so the duplicate check never fires |
| Live.RaiseKeepsQueueOk | src/stream/streams/live.rs:110-111 | raising `last_seg` to a larger pair keeps the queue invariant |
| Live.AppendKeepsQueueOk | src/stream/streams/live.rs:110-144 | appending the segment just recorded as `last_seg` keeps the queue strictly increasing and bounded by `last_seg` |
| Live.SegmentStepKeepsAccOk | src/stream/streams/live.rs:89-146 | one iteration of the refresh loop keeps the invariant |
| Live.RefreshFromKeepsAccOk | src/stream/streams/live.rs:89-146 | the rest of the loop keeps the invariant |
| Live.SegmentStep | src/stream/streams/live.rs:89-146 | one round of the loop keeps every queued entry in place, appends at most one, and never lowers `last_seg` |
| Live.RefreshFrom | src/stream/streams/live.rs:89-146 | the loop only appends to the queue |
| Live.RefreshKeepsQueueOk | src/stream/streams/live.rs:77-165 | `refresh_playlist` keeps the queue strictly increasing in `(discon_seq, seq)` and bounded by `last_seg` |
| Live.StepNumbering | src/stream/streams/live.rs:92-95 | the offset after a segment counts the discontinuities up to and including it |
| Live.CompletedRefreshCovers | src/stream/streams/live.rs:89-146 | after a completed refresh, `last_seg` is at least every segment's pair and at least its old value |
| Live.StepQueuesNew | src/stream/streams/live.rs:97-145 | a segment numbered past `last_seg` that the round takes in ends up queued, and becomes `last_seg` |
| Live.CompletedRefreshQueuesNew | src/stream/streams/live.rs:89-146 | when the loop runs to the end, every later segment numbered past the old `last_seg` is in the queue |
| Live.RefreshQueuesNewSegments | src/stream/streams/live.rs:77-165 | a completed refresh queues every playlist segment above the old `last_seg`, and the queue stays strictly increasing, so they are queued in playlist order |
| Live.NumberedInjective | src/stream/streams/live.rs:89-95 | distinct segments of a playlist get distinct `(discon_seq, seq)` pairs |
| Live.StepInits | src/stream/streams/live.rs:97-145 | one round keeps the initialisation in force equal to the latest map tag among the new segments, and an entry it appends is its segment at the resolved URL and byte range with that initialisation |
| Live.CompletedRefreshInits | src/stream/streams/live.rs:89-146 | when the loop runs to the end, every appended entry is above the old `last_seg` and is its segment with the initialisation of the latest map tag among the new segments up to it |
| Live.RefreshInitialisesSegments | src/stream/streams/live.rs:77-165 | a completed refresh queues each new segment at its resolved URL and byte range, with the initialisation section of the latest `EXT-X-MAP` among the new segments up to it, and none when there is no such tag |
| Live.CoveredRefreshSkips | src/stream/streams/live.rs:98-102 | when `last_seg` already covers the rest of the playlist, the loop skips it all |
| Live.UnchangedPlaylistAddsNothing | src/stream/streams/live.rs:77-165 | re-reading the same playlist queues nothing new |
| Live.PlainPlaylistQueuesPlainSegments | src/stream/streams/live.rs:84-134 | a playlist without keys or maps queues unencrypted segments without initialisation |
| Live.ChunkStep | src/stream/streams/live.rs:170-246 | `chunk` is `Ok(None)` iff the stream has ended with an empty queue; an ended stream stays ended; a refresh is due after 20 s unless ended, and its error is returned; an empty queue then gives an empty chunk; a failed download or decryption leaves the queue and returns that error; a success removes the first entry and returns its body, downloaded from its URL and decrypted with its encryption |
| Live.ChunkKeepsQueueOk | src/stream/streams/live.rs:170-246 | `chunk` keeps the queue invariant |
| Live.LiveStream.constructor | src/stream/streams/live.rs:30-59 | a new stream has its URL, an empty queue, no `last_seg`, is not ended, and was never refreshed |
| Live.LiveStream.RefreshPlaylist | src/stream/streams/live.rs:77-165 | the method's result and new state are `Refresh` of the old state, and it keeps the invariant |
| Live.LiveStream.RefreshSegment | src/stream/streams/live.rs:89-146 | one loop iteration on the fields equals `SegmentStep`, so the round's properties proved there (at most one entry appended, `last_seg` never lowered, `SegmentStepKeepsAccOk`) hold for it |
| Live.LiveStream.QueueSegment | src/stream/streams/live.rs:113-145 | taking a segment in on the fields equals `TakeIn`: the queue gains at most the one new entry, with its resolved URL, byte range and initialisation, and the returned initialisation is the one the map tag sets or the one in force |
| Live.LiveStream.Chunk | src/stream/streams/live.rs:170-246 | the method's result and new state are `ChunkStep` of the old state, and the invariant holds after it |
| NonLive.RangeHeader | src/stream/streams/non_live.rs:195-206 | the `Range` value starts with `bytes=` and ends with `-` exactly when the end is open (0) |
| NonLive.RangeHeaderReadsBack | src/stream/streams/non_live.rs:195-206 | the header's two fields read back as the start and, unless open, the end |
| NonLive.RequestEnd | src/stream/streams/non_live.rs:187-190 | the requested end is open iff the stored end is 0 or reaches the content length, and is the stored end otherwise |
| NonLive.Send | src/stream/streams/non_live.rs:208-222 | a transport failure is `ReqwestMiddleware`; a 4xx or 5xx status is `Reqwest` in the current version only; a success is the concatenated body chunks |
| NonLive.Step | src/stream/streams/non_live.rs:142-232 | `chunk` returns `Ok(None)` iff the end is 0, and then the current version rewinds to the initial range; otherwise it requests `[start, end]` or `[start, ..)`, a failure keeps the start and the possibly opened end, and a success advances to `[end + 1, end + chunk size]`, or stays open when the end was open |
| NonLive.StepFollowsSchedule | src/stream/streams/non_live.rs:174-229 | every successful chunk requests the next range of the schedule |
| NonLive.ScheduleIsContiguous | src/stream/streams/non_live.rs:174-229 | the requested ranges start at the initial start, follow one another without gap or overlap, stay below the content length, and end with one open range |
| NonLive.StatusCheckDiffers | src/stream/streams/non_live.rs:215-216 | an error status fails the current `chunk`, while the older one returns the error page as data |
| NonLive.NonLiveStream.constructor | src/stream/streams/non_live.rs:52-125 | a new stream stores the link, length, chunk size and range, and remembers the range for rewinding |
| NonLive.NonLiveStream.ContentLength | src/stream/streams/non_live.rs:127-236 | `content_length` is the length given at construction, which no call changes |
| NonLive.NonLiveStream.Chunk | src/stream/streams/non_live.rs:142-232 | the method's result and new range are `Step` of the old range in the current version |
| NonLive.LegacyNonLiveStream.constructor | src/stream/stream.rs:44-73 | the older stream stores the link, length, chunk size and range |
| NonLive.LegacyNonLiveStream.Chunk | src/stream/stream.rs:86-139 | the method's result and new range are `Step` of the old range in the older version |
| PlaylistPaging.BrowseError | src/search/youtube.rs:916-924 | a failed browse request is `ReqwestMiddleware` or `BodyCannotParsed` |
| PlaylistPaging.NextOf | src/search/youtube.rs:849-949 | `next` panics (`None`) exactly when it has a token but no client version, which leaves the request body invalid JSON; without a token it returns nothing and changes nothing; a failure changes nothing and is one of the two request errors; a page appends at most `limit` videos and returns exactly them; `api` and the client version are kept |
| PlaylistPaging.FetchOf | src/search/youtube.rs:981-1019 | unless it panics, `fetch` only appends to the videos |
| PlaylistPaging.FetchPanicsOnlyAtStart | src/search/youtube.rs:981-1019 | `fetch` panics exactly when its first `next` would: a token, fewer videos than the limit, and no client version |
| PlaylistPaging.FetchOvershoot | src/search/youtube.rs:995-1016 | unless it panics, `fetch` stops below twice the limit when it starts below the limit, and does nothing at or above it |
| PlaylistPaging.FetchStopsOnFailure | src/search/youtube.rs:1005-1010 | when every request fails, `fetch` changes nothing, unless it panics |
| PlaylistPaging.Playlist.constructor | src/search/youtube.rs:448-460 | a playlist starts with the given videos and continuation |
| PlaylistPaging.Playlist.Next | src/search/youtube.rs:849-949 | the method's result and new state are `NextOf` of the old state; on the panic it returns `None` and changes nothing |
| PlaylistPaging.Playlist.Fetch | src/search/youtube.rs:981-1019 | the paging loop completes iff `FetchOf` of the old state is defined and then leaves that state; on the panic it stops with the state unchanged |
| SearchResults.FilterMap | src/search/youtube.rs:1075-1087 | converting and skipping never gives more results than entries |
| SearchResults.FilterMapAppend | src/search/youtube.rs:1075-1087 | converting two blocks of entries gives the two result lists in order |
| SearchResults.FilterMapMember | src/search/youtube.rs:1075-1087 | a result is exactly the conversion of some entry |
| SearchResults.Take | src/search/youtube.rs:1077-1079 | taking at most `n` gives a prefix of that length, or the whole list |
| SearchResults.PlaylistVideoOf | src/search/youtube.rs:1081-1093 | an entry is a video iff it has a `playlistVideoRenderer` with a `shortBylineText`; its id is the `videoId` or `""`, and its url equals its id |
| SearchResults.PlaylistVideos | src/search/youtube.rs:1066-1199 | a non-array gives no videos, and never more than the limit are returned |
| SearchResults.PlaylistVideosSpec | src/search/youtube.rs:1066-1199 | a non-array gives no videos; otherwise the videos are a prefix of all convertible entries, at most `limit`, and all of them when fewer |
| SearchResults.PlaylistVideoOrigin | src/search/youtube.rs:1066-1199 | every video comes from an array entry with a renderer and a byline, and its url is its id |
| SearchResults.GetPlaylistVideos | src/search/youtube.rs:1066-1199 | the loop with its limit check and skips returns `PlaylistVideos` |
| SearchResults.SearchResultsLimit | src/search/youtube.rs:1490-1505 | a non-array gives no results; limit 0 means no limit; a positive limit caps the count; the results are a prefix of all convertible entries and all of them when fewer |
| SearchResults.FormatSearchResults | src/search/youtube.rs:1490-1505 | the loop with its limit check returns `SearchResultsOf` |
| SearchResults.ContinuationToken | src/search/youtube.rs:1201-1225 | a token comes only from an array, and is the string token of one of its `continuationItemRenderer` elements |
| SearchResults.FirstTokenSpec | src/search/youtube.rs:1201-1225 | the token is that of the first element holding `continuationItemRenderer`, and only when that element's token is a string |
| SearchResults.NoContinuationItem | src/search/youtube.rs:1201-1225 | without a `continuationItemRenderer` there is no token |
| SearchResults.NoContinuationItemIn | src/search/youtube.rs:1207-1211 | no element holding the key means no token |
| PlaylistUrl.IdRun | src/search/youtube.rs:22 | the greedy run of `[a-zA-Z0-9-_]` is at most `max` long and stays within the text |
| PlaylistUrl.IdRunChars | src/search/youtube.rs:22 | the run holds only id characters, and it stops at a non-id character, the end, or `max` |
| PlaylistUrl.IdRunAtLeast | src/search/youtube.rs:22 | `k` id characters make the run at least `min(k, max)` long |
| PlaylistUrl.IdRunExact | src/search/youtube.rs:22 | a run of `k` id characters that ends at a non-id character, the end, or `max` is exactly `k` long |
| PlaylistUrl.PlaylistIdAt | src/search/youtube.rs:21-22 | a `PLAYLIST_ID` match is a two-letter kind and 16 to 41 id characters, within the text |
| PlaylistUrl.AlbumIdAt | src/search/youtube.rs:24-25 | an `ALBUM_REGEX` match lies within the text |
| PlaylistUrl.FirstMatch | src/search/youtube.rs:1033-1046 | the leftmost match: a match at its start and none before; none at all iff no position matches |
| PlaylistUrl.FirstPlaylistId | src/search/youtube.rs:1033-1039 | the leftmost `PLAYLIST_ID` match, and there is none iff no position matches |
| PlaylistUrl.FirstAlbumId | src/search/youtube.rs:1040-1046 | the leftmost `ALBUM_REGEX` match, and there is none iff no position matches |
| PlaylistUrl.PlaylistAtMeans | src/search/youtube.rs:1033-1039 | the matcher handed to the search is `PlaylistIdAt` |
| PlaylistUrl.AlbumAtMeans | src/search/youtube.rs:1040-1046 | the matcher handed to the search is `AlbumIdAt` |
| PlaylistUrl.GetPlaylistUrl | src/search/youtube.rs:1031-1064 | `get_playlist_url` is `None` iff the matched id is empty or a mix (`RD` and no album match); otherwise it is the playlist URL of the matched id |
| PlaylistUrl.AlbumIsPlaylistId | src/search/youtube.rs:21-25 | wherever `ALBUM_REGEX` matches, `PLAYLIST_ID` matches too |
| PlaylistUrl.AlbumHeadsAreKinds | src/search/youtube.rs:24-25 | `RDCLAK5uy_` and `OLAK5uy_` start with a playlist kind followed by id characters |
| PlaylistUrl.HeadThenRun | src/search/youtube.rs:21-25 | an album head followed by 33 id characters is a `PLAYLIST_ID` match |
| PlaylistUrl.AlbumFallbackUnused | src/search/youtube.rs:1040-1046 | the album branch is never taken: an album match implies a playlist match |
| PlaylistUrl.PlaylistMatchShape | src/search/youtube.rs:21-22 | a matched id is 18 to 43 characters, a kind then id characters |
| PlaylistUrl.MatchedId | src/search/youtube.rs:1033-1050 | the matched id is a piece of the input text, and it is empty only when `PLAYLIST_ID` matches nowhere |
| PlaylistUrl.MatchedIdShape | src/search/youtube.rs:1033-1050 | a non-empty matched id has that shape |
| PlaylistUrl.MatchedIdIsTrimmed | src/search/youtube.rs:1050 | the `trim` after the match changes nothing |
| PlaylistUrl.PrefixHasNoKindLetter | src/search/youtube.rs:1062 | the URL prefix holds none of the letters a playlist kind starts with |
| PlaylistUrl.FirstMatchAt | src/search/youtube.rs:1033-1046 | a match with no match before it is the leftmost one |
| PlaylistUrl.CanonicalMatch | src/search/youtube.rs:1031-1064 | the id matched in the playlist URL of an id is that id |
| PlaylistUrl.LeadingIdMatch | src/search/youtube.rs:1033-1039 | after text without kind letters, the id is the leftmost match |
| PlaylistUrl.IdMatchesAt | src/search/youtube.rs:21-22 | a well-formed id matches whole where it starts |
| PlaylistUrl.GetPlaylistUrlIdempotent | src/search/youtube.rs:1031-1064 | normalising a playlist URL again gives the same URL |
| ResultSerializers.FieldInGroup | cli/src/utils/result_serializer.rs:82-108 | every field other than `high_replication` belongs to exactly one group |
| ResultSerializers.FieldSelected | cli/src/utils/result_serializer.rs:63-108 | such a field is written iff the level contains every flag of its group's mask |
| ResultSerializers.InSelected | cli/src/utils/result_serializer.rs:66-73 | a group writes a field iff the field is its own and the level contains the group's mask |
| ResultSerializers.OccurrencesAppend | cli/src/utils/result_serializer.rs:82-108 | occurrences add up over concatenated field lists |
| ResultSerializers.HighReplicationIn | cli/src/utils/result_serializer.rs:94-100 | `high_replication` is listed in the video-track-verbose group and in the audio-track group |
| ResultSerializers.OccurrencesAbsent | cli/src/utils/result_serializer.rs:82-108 | a field not listed occurs zero times |
| ResultSerializers.HighReplicationTwice | cli/src/utils/result_serializer.rs:94-100 | `high_replication` is written once for each of video-track-with-verbose and audio-track the level contains, so twice when both |
| ResultSerializers.AllGroupNeedsEveryFlag | cli/src/utils/result_serializer.rs:105-107 | the last group is written iff the level is exactly `all()` |
| ResultSerializers.MapWriter.constructor | cli/src/utils/result_serializer.rs:80 | a new map has no entries |
| ResultSerializers.MapWriter.SerializeEntry | cli/src/utils/result_serializer.rs:68-71 | `serialize_entry` appends exactly its key |
| ResultSerializers.Keys | cli/src/utils/result_serializer.rs:69 | one key per field |
| ResultSerializers.KeysAppend | cli/src/utils/result_serializer.rs:82-108 | the keys of two field lists are the two key lists in order |
| ResultSerializers.KeysOfFields | cli/src/utils/result_serializer.rs:82-108 | the keys written are the groups' keys in declaration order |
| ResultSerializers.WriteGroup | cli/src/utils/result_serializer.rs:66-73 | one group appends exactly its selected fields' keys |
| ResultSerializers.SerializeFormat | cli/src/utils/result_serializer.rs:58-111 | `FormatSerializer::serialize` appends the keys of the fields the level selects, in order |
| ResultSerializers.NewResultSerializer | cli/src/utils/result_serializer.rs:16-32 | `new` keeps the level and the info and makes one format serializer per format |
| ResultSerializers.NewKeepsFormats | cli/src/utils/result_serializer.rs:17-25 | format serializer `i` wraps format `i` with the shared level |
| ResultSerializers.TopKeys | cli/src/utils/result_serializer.rs:40-48 | the top-level keys end with `streams`, and `video_info` is written iff the level contains `VIDEO` |
| ResultSerializers.SerializeResult | cli/src/utils/result_serializer.rs:36-49 | `ResultSerializer::serialize` appends `TopKeys` |
| SearchKeys.FilterString | src/search/youtube.rs:1246-1254 | the `sp` filter is empty iff the search type is `All`, otherwise a 16-character `EgIQ…%253D%253D` code |
| SearchKeys.FirstPiece | src/search/youtube.rs:1264-1266 | the first piece of a split is the longest prefix that does not contain the separator |
| SearchKeys.SecondPiece | src/search/youtube.rs:1258-1262 | a split has a second piece iff the marker occurs, and that piece is the text after the first occurrence up to the next one |
| SearchKeys.UpToQuote | src/search/youtube.rs:1264-1266 | the key is the text before the first `"` |
| SearchKeys.KeyAfter | src/search/youtube.rs:1258-1269 | a key is found exactly when the marker occurs in the page, and it never contains a `"` |
| SearchKeys.KeyAfterSpec | src/search/youtube.rs:1258-1269 | a key is found iff the marker occurs, and it is the quote-free text right after the first marker, ended by `"` or the end of the page |
| SearchKeys.KeyAfterFound | src/search/youtube.rs:1258-1269 | the found key sits right after the marker and stops at the first `"` |
| SearchKeys.GetApiKey | src/search/youtube.rs:1312-1363 | `INNERTUBE_API_KEY` wins, then `innertubeApiKey`, then the built-in default key |
| SearchKeys.GetClientVersion | src/search/youtube.rs:1256-1310 | `INNERTUBE_CONTEXT_CLIENT_VERSION` wins, then the lower-case marker, then the built-in default version |
| SearchKeys.QuoteEndsKey | src/search/youtube.rs:1318-1322 | a quote-free text followed by `"` is exactly what the split up to the quote returns |
| SearchKeys.ApiKeyFromPage | src/search/youtube.rs:1312-1322 | a page holding `"INNERTUBE_API_KEY":"<key>"` yields that key |
| SearchKeys.GetEmbedUrl | src/search/youtube.rs:409-415 | no URL iff the id is blank after trimming, otherwise the embed prefix followed by the id |
| SearchKeys.GetEmbedHtml | src/search/youtube.rs:352-407 | no iframe iff the id is blank or the player URL does not parse; otherwise the iframe with the defaults 600, 480 and the stock title filled in |
| SearchKeys.EmbedDefaultsKeepUrl | src/search/youtube.rs:432-445 | with the default options the iframe points at the plain `www.youtube.com/embed/<id>` URL, unchanged |
| SearchKeys.EmbedSrc | src/search/youtube.rs:390-397 | only the query of the player URL changes: it is set when a pair is due, and with controls on and no start time the URL is unchanged |
| SearchKeys.EmbedSrcPairs | src/search/youtube.rs:390-397 | the query pairs appended are `controls=0` when controls are off, then `start=<n>` when the start time is positive |
| SearchKeys.EmbedQuery | src/search/youtube.rs:390-397 | when a pair is appended, the query becomes the old query extended by the pairs joined with `&` |
| UrlRewrite.ReplaceParam | src/utils.rs:471-480 | every query pair keeps its name, exactly the pairs with the given name take the new value, and a query without that name comes back as it was |
| UrlRewrite.SetParam | src/utils.rs:471-486 | every pair with the name holds the value, the other pairs keep their place, and one pair is appended exactly when the name was absent |
| UrlRewrite.Decipher | src/utils.rs:398-489 | `decipher` panics exactly when the query string does not parse; the signature cache stays or becomes the current script, and changes only when that script loaded |
| UrlRewrite.UpdateUrlWithN | src/utils.rs:552-572 | an unparsable URL comes back as is, and a URL without an `n` pair is only re-serialised: no `n` pair is ever added |
| UrlRewrite.Ncode | src/utils.rs:492-575 | without an `n` argument or a script the URL and cache come back unchanged; the cache keeps every entry; a changed URL has its `n` set to the cached transform of its `n` value |
| UrlRewrite.DownloadUrl | src/utils.rs:355-395 | only a format without a URL can panic (through `decipher`); a format with a URL leaves the signature cache alone; the n cache keeps every entry |
| UrlRewrite.SetParamSpec | src/utils.rs:471-486 | after the rewrite the parameter is present with the new value everywhere, the other pairs are unchanged, and a pair is appended only when the name was absent |
| UrlRewrite.SetParamIdempotent | src/utils.rs:471-486 | setting the same parameter twice is the same as once |
| UrlRewrite.DecipherWithoutSignature | src/utils.rs:409-418 | without an `s` argument or without a script, `decipher` returns the `url` argument, or the input itself |
| UrlRewrite.DecipherSetsSignature | src/utils.rs:420-488 | when the script evaluates to a string, the `url` argument comes back with the `sp` parameter (default `signature`) set to it and the script cached |
| UrlRewrite.DecipherCache | src/utils.rs:420-435 | a cache hit never loads the script again: the result is the same whatever loading would do |
| UrlRewrite.NcodeCacheHit | src/utils.rs:505-507 | a cached `n` value is applied without loading or evaluating any script |
| UrlRewrite.NcodeCacheGrows | src/utils.rs:505-550 | the n cache only grows, keeps its old entries, and the only new key is the URL's `n` value |
| UrlRewrite.NcodeStable | src/utils.rs:492-575 | running `ncode` again with the cache it produced gives the same URL |
| UrlRewrite.UrlCaches.constructor | src/utils.rs:355-360 | both caches start empty |
| UrlRewrite.UrlCaches.SetDownloadUrl | src/utils.rs:355-395 | the format gets the URL `DownloadUrl` computes (ncode of the plain URL, or of the deciphered cipher) and both caches take their new values; a failed query parse is the panic |
| UrlRewrite.LoneNScriptIsNotApplied | src/utils.rs:369-380 | with only one script entry the n script is empty, so a plain URL and both caches come back unchanged |
| VideoId.IdCharIsNotWhitespace | src/utils.rs:592-596 | no identifier character is whitespace, so trimming never touches an id |
| VideoId.NextChar | src/utils.rs:600 | the first occurrence of a delimiter at or after a position, and none before it: the end of the line where `(?m)` stops `.*`, the next `/` where `[^/]+` stops |
| VideoId.IdRunEnd | src/utils.rs:600 | the end of the longest run of `[\w-]` characters from a position |
| VideoId.CaptureAt | src/utils.rs:600 | the greedy `([\w-]+)` capture at a position: present iff an identifier character is there, and it runs to the first non-identifier character |
| VideoId.LastVParam | src/utils.rs:600 | the last `[?&]v=` in a range, as backtracking over the greedy `.*` finds it |
| VideoId.LastSlashCapture | src/utils.rs:600 | the last `/` in a range after which an id can be captured, for `[^/]+/.+/` |
| VideoId.MatchIsId | src/utils.rs:600 | a regex match at a position captures a non-empty run of identifier characters |
| VideoId.PathIdAtIsId | src/utils.rs:600 | so does a match of either host alternative |
| VideoId.AfterYoutubeIsId | src/utils.rs:600 | so does a match of any path form after `youtube.com/` |
| VideoId.PathId | src/utils.rs:599-627 | the leftmost match of the path regex from a position, and its capture is an identifier run |
| VideoId.FirstValue | src/utils.rs:605-611 | `find_map` over the query pairs: found iff some pair has the key, and the value is that of such a pair |
| VideoId.KeepIfPrefixValid | src/utils.rs:612-624 | the filter as written: keeps the whole id iff its first eleven characters are a valid id |
| VideoId.TakeValidPrefix | src/utils.rs:612-624 | the corrected filter: keeps exactly the first eleven characters, iff they are a valid id |
| VideoId.ValidateId | src/utils.rs:592-596 | `validate_id` checks the trimmed text, so nothing shorter than eleven characters passes |
| VideoId.ExactIdValidates | src/utils.rs:592-596 | eleven characters of `[a-zA-Z0-9-_]` pass as they are |
| VideoId.UrlVideoIdAsWritten | src/utils.rs:598-641 | `get_url_video_id` as written succeeds exactly where the corrected version does, returns at least eleven characters, and its first eleven are the corrected result |
| VideoId.GetVideoIdAsWritten | src/utils.rs:579-590 | `get_video_id` as written returns a valid bare id untouched; any other result comes from an `http(s)` URL and starts with eleven valid characters |
| VideoId.UrlVideoId | src/utils.rs:598-641 | the corrected `get_url_video_id` returns only valid ids |
| VideoId.GetVideoId | src/utils.rs:579-590 | the corrected `get_video_id` returns only valid ids, and returns one exactly when the code as written does |
| VideoId.CorrectionOnlyTruncates | src/utils.rs:579-641 | the correction differs from the code as written only by cutting the returned id to its first eleven characters |
| VideoId.BareIdUnchanged | src/utils.rs:582-583 | a valid id is returned as it is |
| VideoId.TenCharIdRejected | tests/regex.rs:27-28 | the ten-character `FZ8BxU3BYc` gives no id |
| VideoId.NonUrlRejected | src/utils.rs:582-588 | a text that is neither an eleven-character id nor starts like `http` gives no id |
| VideoId.NotHttpUrl | src/utils.rs:580 | `^https?://` needs a leading `h` |
| VideoId.WatchUrlId | tests/regex.rs:6-13 | a watch URL whose first query pair is `v=FZ8BxMU3BYc` gives that id |
| VideoId.WatchIdValid | tests/regex.rs:5 | `FZ8BxMU3BYc` is a valid eleven-character id |
| VideoId.VParamId | src/utils.rs:605-616 | a URL whose first query pair is `v=<valid id>` gives that id |
| VideoId.VParamCandidate | src/utils.rs:605-611 | the `v` value of the first pair is the candidate |
| VideoId.ValidIdKept | src/utils.rs:612-615 | the filter keeps a valid eleven-character id |
| VideoId.WholeSubstring | src/utils.rs:613 | `substring(0, 11)` of an eleven-character text is the text |
| VideoId.CaptureWhole | src/utils.rs:600 | after a prefix, a whole identifier run is captured |
| VideoId.NoHostAt | src/utils.rs:600 | both host alternatives start with `y` |
| VideoId.ShortLinkHost | src/utils.rs:600 | after `youtu.be/` the capture is taken directly |
| VideoId.NonWordStart | src/utils.rs:600 | after a non-word character `\W` is consumed and the host must follow |
| VideoId.WordNoStart | src/utils.rs:600 | a match cannot start on a word character except at the start of a line |
| VideoId.PathIdSkip | src/utils.rs:618-620 | positions without a match are skipped by the leftmost search |
| VideoId.HttpsSchemeNoMatch | src/utils.rs:600 | nothing in `https:/` starts a match |
| VideoId.ShortLinkShape | tests/regex.rs:14-17 | the layout of `https://youtu.be/<id>` |
| VideoId.ShortLinkMatch | src/utils.rs:600-627 | an `https://youtu.be/` URL's match is its capture after the host |
| VideoId.ShortLinkPathId | tests/regex.rs:14-17 | `https://youtu.be/<id>` gives the id run |
| VideoId.NoVParamIn | src/utils.rs:600 | a path keyword and an id contain no `[?&]v=` |
| VideoId.KeywordAfterYoutube | src/utils.rs:600 | after `youtube.com/`, `shorts/` or `embed/` is followed by the capture |
| VideoId.WwwYoutubeMatch | src/utils.rs:600-627 | an `https://www.youtube.com/` URL's match is the one after the host |
| VideoId.WwwPrefixNoMatch | src/utils.rs:600 | nothing in `https://www` starts a match |
| VideoId.YoutubeHost | src/utils.rs:600 | after the host `youtube.com/` the path alternatives are tried |
| VideoId.PathIdStep | src/utils.rs:618-620 | the leftmost search moves past a position without a match |
| VideoId.PathIdHere | src/utils.rs:618-620 | the leftmost search stops at a match |
| VideoId.WwwYoutubeShape | tests/regex.rs:18-25 | the layout of `https://www.youtube.com/<kw><id>` |
| VideoId.WwwYoutubePathId | tests/regex.rs:18-25 | `https://www.youtube.com/shorts/<id>` and `…/embed/<id>` give the id run |
| VideoId.WwwYoutubeAfterHost | src/utils.rs:600 | after that host, the keyword and id give the id |
| VideoId.IdCharsUntrimmed | src/utils.rs:594 | trimming leaves an identifier run alone |
| VideoId.ValidIdChars | src/utils.rs:592-596 | an identifier run is a valid id iff it has eleven characters |
| VideoId.FirstElevenChars | src/utils.rs:613 | `substring(0, 11)` is the whole text when shorter, the first eleven characters otherwise |
| VideoId.HttpsUrlShape | src/utils.rs:582-585 | a long `https://` URL is not an id and takes the URL route |
| VideoId.PathRoute | src/utils.rs:618-627 | a URL without a `v` pair takes the path route through the filter |
| VideoId.TestUrlShape | tests/regex.rs:14-25 | the test URLs take the URL route |
| VideoId.ValidPathId | tests/regex.rs:14-25 | a short link, shorts or embed URL with an eleven-character id gives that id, in both versions |
| VideoId.OverlongIdReturned | src/utils.rs:618-627 | with a longer capture the code as written returns the whole capture, which is not a valid id; the correction returns its first eleven characters |
| VideoId.OverlongIdChars | src/utils.rs:593 | `FZ8BxMU3BYcXYZ` is all identifier characters |
| VideoId.OverlongUrlShape | src/utils.rs:582-585 | `https://youtu.be/FZ8BxMU3BYcXYZ` takes the URL route |
| VideoId.OverlongUrlPathId | src/utils.rs:600 | its capture is `FZ8BxMU3BYcXYZ` |
| VideoId.OverlongShortLink | src/utils.rs:598-641 | `https://youtu.be/FZ8BxMU3BYcXYZ` gives the invalid `FZ8BxMU3BYcXYZ` as written, `FZ8BxMU3BYc` once corrected |
| Http.FlattenAppend | src/stream/stream.rs:126-129 | the buffer keeps every chunk, in order |
| Http.Body | src/stream/stream.rs:124-129 | a failing chunk read is `VideoError::Reqwest` and the body is lost; otherwise the body is the chunks in order |
| Http.ReadBody | src/stream/stream.rs:124-129 | the read loop produces `Body` |

## Left out

- HTTP: every request, with reqwest and its retry middleware, is a parameter. The model takes a reply, a content length or a fetch function as input.
- JavaScript evaluation in `decipher` and `ncode` is a parameter: a function from a script and an expression to an optional value. The `Context` kept in the signature cache is represented by the script it was built from.
- `serde_qs` and `url::Url` parsing, serialization and percent-encoding are parameters, or the small `UrlForm` layer of query text and pairs.
- AES-128-CBC and the key download are parameters of `Encryption::decrypt`.
- The ffprobe process of `MediaFormat::detect` is a parameter. The model maps its reported format name. The `FFmpegStream` feature stream is not modelled.
- Sleeping and the clock in `LiveStream::chunk` are clock readings passed in as numbers. `tokio` locks, `async` and concurrency are not modelled: each method runs alone.
- The process-wide `FUNCTIONS` cache and the innertube key cache guard their values with asynchronous locks. Only the values they hold are modelled.
- Floating point is not modelled: `parse_abbreviated_number` and the chapter start times.
- HTML scraping with `scraper`, and JSON walks beyond the fields the model reads. `get_media`, which builds JSON text that does not parse, is not modelled.
- `src/blocking/**`, the CLI command runners and logger, `src/main.rs`, `src/live_stream/mod.rs` and the data tables of `src/constants.rs`, beyond the constants the model uses.
- Playlist videos keep only the fields the paging logic needs: id and URL. The thumbnail, author and duration fields, the `convert` parameter of the search results and the message text of `from_str` errors are not modelled. `Playlist::get` is the browse request and is a parameter.
- `OutputFormat::serialize` is not modelled. The serialized values are not modelled either: the model records which keys are written, and in which order.
- The host rewrite in `get_m3u8` (`set_host`) is part of the fetch parameter.
- Integers are unbounded. Where a `u64` or `u32` bound matters, it appears as a precondition or a bound in the contract. Other overflows the source cannot reach on real data are not modelled.
- The player-script scanner reads `char`s where the source reads bytes. Every delimiter is ASCII, so cut positions agree up to the mapping between byte and character indices.
- CipherExtract.DecipherEntry: models the slice as written. `str::find` gives a byte offset and `slice` counts characters, so any character wider than one byte before the definition moves the cut past the definition's `{`; `WideCharDropsFunctionBody` shows the `{}` fallback then replacing the function body. The model does not claim the cut starts right after the definition except on ASCII text (`AsciiSubBody`).
- CipherExtract.NcodeEntry: the same byte-offset slice as `DecipherEntry`.
- CipherExtract.Manipulations: the same byte-offset slice, one character back, for the helper object.
- The `rvs` argument decode (`serde_qs` with `unwrap`) is a parameter that yields the decoded list.
- The empty `split` result in `get_api_key` and `get_client_version` cannot occur, because a split always has a first piece; that fallback is folded into the reachable conditions.
- Regex classes are ASCII: `\w`, `\W`, `\b` and `\d` in the source's regexes are Unicode-aware in the `regex` crate, and the model reads them as their ASCII parts. Unicode character tables are not modelled. The members below are exact only on inputs whose letters and digits are ASCII.
- Formats.AddFormatMeta: `\bsource[/=]yt_live_broadcast\b` uses ASCII word boundaries. In `ésource/yt_live_broadcast` the source finds no boundary before `source` and reports no live stream; the model reports one.
- Formats.LiveMarkerAt: the same ASCII word boundaries as `AddFormatMeta`.
- Info.ItagAt: `/itag/(\d+)/` accepts only ASCII digits. The source also accepts other Unicode decimal digits: in the line `https://h/itag/٢٢/x` it captures `٢٢`.
- Info.ItagLine: the same ASCII `\d` as `ItagAt`. A line such as `https://h/itag/٢٢/x` is dropped by the model; the source keeps it, with `٢٢` as its itag text.
- Ipv6.MaskParses: the prefix-length group `(1[0-1]\d|12[0-8]|\d{1,2})` takes only ASCII digits. The source's `\d` also matches other digits, so `2001:4::/4٥` matches its regex, and the `parse::<u8>` that follows fails with `InvalidIPv6Subnet`. With ASCII digits that parse always succeeds, as `MaskParses` states.
- Ipv6.GetRandomV6Ip: for a prefix length with non-ASCII digits, such as `2001:4::/4٥`, the source returns `InvalidIPv6Subnet`; the model returns `InvalidIPv6Format`.
- VideoId.IdRunEnd: `[\w-]` is read as `[a-zA-Z0-9_-]`. For `https://youtu.be/FZ8BxMU3BYcé`, the source's capture runs on through `é`; the model's stops before it.
- VideoId.CaptureAt: the same ASCII `[\w-]` as `IdRunEnd`.
- VideoId.PathId: the same ASCII `[\w-]` and `\W` as `CaptureAt` and `NonWordStart`.
- VideoId.NonWordStart: `\W` is read as "not ASCII `[a-zA-Z0-9_]`". In `https://éyoutu.be/FZ8BxMU3BYc` the source finds no `\W` before `youtu.be` and no match; the model matches.
- VideoId.WordNoStart: the same ASCII `\W` as `NonWordStart`.
- VideoId.UrlVideoId: inherits the ASCII classes of `PathId`. `https://éyoutu.be/FZ8BxMU3BYc` gives `None` in the source and `FZ8BxMU3BYc` in the model.
- VideoId.GetVideoId: inherits the ASCII classes of `UrlVideoId`.
- VideoId.UrlVideoIdAsWritten: inherits the ASCII classes of `PathId`.
- VideoId.GetVideoIdAsWritten: inherits the ASCII classes of `UrlVideoIdAsWritten`.
- Formats.ChooseFormat: the custom quality's comparator is modelled as a list of sort keys compared lexicographically, largest first. A general Rust `Fn` comparator, which need not be a total order, is not modelled.
- OutputLevels.ParseFormat: the source reads the text as a JSON string literal, so escapes such as `pretty\u002djson` name a format too. JSON escape decoding is not modelled; only the plain names are recognised.
- PlaylistPaging.NextOf: the request body is JSON text built with `format!`. A continuation token or client version holding `"`, `\` or a control character changes or breaks that JSON; the model assumes such characters do not occur. The empty client version, which breaks the JSON in every case, is modelled as the panic.
- Duration.TimeToMs: requires at most six `:`-fields, because `u32::pow(60, i)` overflows and panics beyond that.
- InfoExtras.StoryboardsOf: requires every part's `columns * rows` to be non-zero and to fit in `i32`. The source panics on division by zero and wraps the product in release builds; neither case is modelled.
- InfoExtras.GetStoryboards: the same precondition as `StoryboardsOf`.
- HlsEncryption.Decrypt: requires a key body of at least 16 bytes, where the source's `[..16]` panics. Also requires a method other than `SampleAes`, which the source leaves `unimplemented!()`.
- Live.ChunkStep: the same key-length and `SampleAes` conditions as `Decrypt`. It also requires the clock not to run backwards, where the `u128` subtraction would underflow.
- Formats.FromStreamingData: requires a mime type, which the source unwraps.

## Findings

| source | as written | input that shows it | evidently intended | confidence | as-written member | corrected member |
|---|---|---|---|---|---|---|
| src/utils.rs:618-627 | the path regex captures the whole `[\w-]+` run, the filter validates only its first eleven characters, and the whole capture is returned | `https://youtu.be/FZ8BxMU3BYcXYZ` gives `FZ8BxMU3BYcXYZ`, which `validate_id` rejects | return the eleven validated characters, `FZ8BxMU3BYc` | not executed | VideoId.GetVideoIdAsWritten, shown by VideoId.OverlongShortLink | VideoId.GetVideoId |

Where the code and its documentation differ, the model follows the code.
