/**
 * The crate's error type (`VideoError` in src/structs.rs), reduced to the
 * variants the modelled code produces. Payload strings are kept where the
 * code builds them; wrapped library errors become plain tags.
 */
module Errors {
  datatype VideoError =
    | VideoNotFound
    | VideoSourceNotFound
    | VideoIsPrivate
    | VideoPlayerResponseError(reason: string)
    | Reqwest
    | ReqwestMiddleware
    | URLParseError
    | BodyCannotParsed
    | FormatNotFound
    | InvalidIPv6Format
    | InvalidIPv6Subnet
    | M3U8ParseError(message: string)
    | IsNotPlaylist(url: string)
    | PlaylistBodyCannotParsed
    | DownloadError(message: string)
    | EncryptionError(message: string)
    | DecryptionError(message: string)
    | HexError
    | ChildProcessError(message: string)
    | LiveStreamNotSupported
    | CookieError
}
