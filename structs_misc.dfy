/**
 * Two small pieces of src/structs.rs: the ffmpeg command line that
 * `FFmpegArgs::build` assembles, and the retry classification of a finished
 * request in `custom_on_request_success`.
 */
module Structs {
  import opened Wrappers

  /** `FFmpegArgs`: the optional output format and audio and video filters. */
  datatype FFmpegArgs = FFmpegArgs(format: Option<string>, audioFilter: Option<string>, videoFilter: Option<string>)

  /** Read from stdin, no probing, no logging. */
  const INPUT_ARGS: seq<string> := ["-i", "-", "-analyzeduration", "0", "-loglevel", "0"]

  /** Write to stdout. */
  const OUTPUT_ARG: string := "pipe:1"

  /** The `flag value` pair for an option that is set, nothing for one that is not. */
  function OptionPair(flag: string, value: Option<string>): (pair: seq<string>)
    ensures value.None? <==> pair == []
    ensures value.Some? ==> pair == [flag, value.value]
  {
    if value.Some? then [flag, value.value] else []
  }

  predicate AnySet(a: FFmpegArgs) {
    a.format.Some? || a.audioFilter.Some? || a.videoFilter.Some?
  }

  /** `FFmpegArgs::build`: the pairs pushed in order, wrapped in the input and output arguments when any was pushed. */
  method Build(a: FFmpegArgs) returns (args: seq<string>)
    ensures !AnySet(a) <==> args == []
    ensures AnySet(a) ==> (args == INPUT_ARGS + OptionPair("-f", a.format) + OptionPair("-af", a.audioFilter)
      + OptionPair("-vf", a.videoFilter) + [OUTPUT_ARG])
  {
    args := [];
    if a.format.Some? {
      args := args + ["-f"];
      args := args + [a.format.value];
    }
    if a.audioFilter.Some? {
      args := args + ["-af"];
      args := args + [a.audioFilter.value];
    }
    if a.videoFilter.Some? {
      args := args + ["-vf"];
      args := args + [a.videoFilter.value];
    }
    if a.format.Some? || a.audioFilter.Some? || a.videoFilter.Some? {
      args := INPUT_ARGS + args;
      args := args + [OUTPUT_ARG];
    }
  }

  /** Each set option appears once, as its flag directly followed by its value, and the output goes to stdout last. */
  lemma BuildShape(a: FFmpegArgs, args: seq<string>)
    requires AnySet(a)
    requires args == INPUT_ARGS + OptionPair("-f", a.format) + OptionPair("-af", a.audioFilter)
      + OptionPair("-vf", a.videoFilter) + [OUTPUT_ARG]
    ensures args[..6] == INPUT_ARGS && args[|args| - 1] == OUTPUT_ARG
    ensures |args| == 7 + 2 * ((if a.format.Some? then 1 else 0) + (if a.audioFilter.Some? then 1 else 0) + (if a.videoFilter.Some? then 1 else 0))
    ensures a.format.Some? ==> args[6] == "-f" && args[7] == a.format.value
    ensures a.format.None? && a.audioFilter.Some? ==> args[6] == "-af" && args[7] == a.audioFilter.value
  {
    assert args[..6] == INPUT_ARGS;
  }

  /* ---------- custom_on_request_success ---------- */

  /** `reqwest_retry::Retryable` */
  datatype Retryable = Transient | Fatal

  /** `StatusCode::is_success` */
  predicate IsSuccess(status: nat) { 200 <= status <= 299 }

  /** `StatusCode::is_client_error` */
  predicate IsClientError(status: nat) { 400 <= status <= 499 }

  /** `StatusCode::is_server_error` */
  predicate IsServerError(status: nat) { 500 <= status <= 599 }

  /**
   * `custom_on_request_success`: retry 4xx and 5xx, accept 2xx, give up on
   * anything else. The three outcomes split the status codes.
   */
  function OnRequestSuccess(status: nat): (r: Option<Retryable>)
    ensures r == Some(Transient) <==> 400 <= status < 600
    ensures r.None? <==> 200 <= status < 300
    ensures r == Some(Fatal) <==> status < 200 || (300 <= status < 400) || status >= 600
  {
    if IsServerError(status) || IsClientError(status) then Some(Transient)
    else if IsSuccess(status) then None
    else Some(Fatal)
  }
}
