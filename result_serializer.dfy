/**
 * The command line's result printer (cli/src/utils/result_serializer.rs):
 * `ResultSerializer::new` pairs each format with the output level, and the
 * two `Serialize` impls write map entries chosen by that level. The
 * serde map is a writer that records the keys in the order they are
 * written; the values are the crate's own fields and are not modelled.
 */
module ResultSerializers {
  import opened OutputLevels

  /** The `VideoFormat` fields the format printer can write, by their serialised key. */
  datatype Field =
    | Itag | MimeType | Quality | HasVideo | HasAudio | ApproxDurationMs | Url
    | Height | Width | QualityLabel | Fps
    | ColorInfo | HighReplication
    | AudioQuality | Bitrate | AudioSampleRate | AudioChannels | LoudnessDb
    | AverageBitrate
    | IndexRange | InitRange | LastModified | ProjectionType | IsLive | IsHls | IsDashMpd

  /** The map key a field is written under. */
  function KeyOf(f: Field): string {
    match f
    case Itag => "itag"
    case MimeType => "mime_type"
    case Quality => "quality"
    case HasVideo => "has_video"
    case HasAudio => "has_audio"
    case ApproxDurationMs => "approx_duration_ms"
    case Url => "url"
    case Height => "height"
    case Width => "width"
    case QualityLabel => "quality_label"
    case Fps => "fps"
    case ColorInfo => "color_info"
    case HighReplication => "high_replication"
    case AudioQuality => "audio_quality"
    case Bitrate => "bitrate"
    case AudioSampleRate => "audio_sample_rate"
    case AudioChannels => "audio_channels"
    case LoudnessDb => "loudness_db"
    case AverageBitrate => "average_bitrate"
    case IndexRange => "index_range"
    case InitRange => "init_range"
    case LastModified => "last_modified"
    case ProjectionType => "projection_type"
    case IsLive => "is_live"
    case IsHls => "is_hls"
    case IsDashMpd => "is_dash_mpd"
  }

  /** The seven field groups of `FormatSerializer::serialize`, named by their mask. */
  datatype GroupName =
    | General | GeneralVerbose | VideoTrack | VideoTrackVerbose | AudioTrack | AudioTrackVerbose | Everything

  /** The level bits a group needs. */
  function Mask(g: GroupName): Level {
    match g
    case General => GENERAL
    case GeneralVerbose => GENERAL | VERBOSE
    case VideoTrack => VIDEO_TRACK
    case VideoTrackVerbose => VIDEO_TRACK | VERBOSE
    case AudioTrack => AUDIO_TRACK
    case AudioTrackVerbose => AUDIO_TRACK | VERBOSE
    case Everything => ALL
  }

  /** The fields a group writes, in order. */
  function GroupFields(g: GroupName): seq<Field> {
    match g
    case General => [Itag, MimeType, Quality, HasVideo, HasAudio, ApproxDurationMs, Url]
    case GeneralVerbose => []
    case VideoTrack => [Height, Width, QualityLabel, Fps]
    case VideoTrackVerbose => [ColorInfo, HighReplication]
    case AudioTrack => [AudioQuality, Bitrate, AudioSampleRate, AudioChannels, LoudnessDb, HighReplication]
    case AudioTrackVerbose => [AverageBitrate]
    case Everything => [IndexRange, InitRange, LastModified, ProjectionType, IsLive, IsHls, IsDashMpd]
  }

  /** A group's fields when the level contains its mask, none otherwise. */
  function Selected(level: Level, g: GroupName): seq<Field> {
    if Contains(level, Mask(g)) then GroupFields(g) else []
  }

  /** The fields written for `level`: the seven groups in order, each when selected. */
  function FieldsOf(level: Level): seq<Field> {
    Selected(level, General) + Selected(level, GeneralVerbose) + Selected(level, VideoTrack)
    + Selected(level, VideoTrackVerbose) + Selected(level, AudioTrack) + Selected(level, AudioTrackVerbose)
    + Selected(level, Everything)
  }

  /** The group holding a field other than `high_replication`. */
  function GroupOf(f: Field): GroupName {
    match f
    case Itag | MimeType | Quality | HasVideo | HasAudio | ApproxDurationMs | Url => General
    case Height | Width | QualityLabel | Fps => VideoTrack
    case ColorInfo | HighReplication => VideoTrackVerbose
    case AudioQuality | Bitrate | AudioSampleRate | AudioChannels | LoudnessDb => AudioTrack
    case AverageBitrate => AudioTrackVerbose
    case IndexRange | InitRange | LastModified | ProjectionType | IsLive | IsHls | IsDashMpd => Everything
  }

  /** A field other than `high_replication` is in its own group and in no other. */
  lemma FieldInGroup(f: Field, g: GroupName)
    requires f != HighReplication
    ensures f in GroupFields(g) <==> g == GroupOf(f)
  {
  }

  /**
   * Every field but `high_replication` is written iff the level contains
   * every bit of its group's mask.
   */
  lemma FieldSelected(level: Level, f: Field)
    requires f != HighReplication
    ensures f in FieldsOf(level) <==> Contains(level, Mask(GroupOf(f)))
  {
    InSelected(level, f, General);
    InSelected(level, f, GeneralVerbose);
    InSelected(level, f, VideoTrack);
    InSelected(level, f, VideoTrackVerbose);
    InSelected(level, f, AudioTrack);
    InSelected(level, f, AudioTrackVerbose);
    InSelected(level, f, Everything);
  }

  lemma InSelected(level: Level, f: Field, g: GroupName)
    requires f != HighReplication
    ensures f in Selected(level, g) <==> g == GroupOf(f) && Contains(level, Mask(g))
  {
    FieldInGroup(f, g);
  }

  /** How many times `f` is written. */
  function Occurrences(fields: seq<Field>, f: Field): nat {
    if fields == [] then 0 else (if fields[0] == f then 1 else 0) + Occurrences(fields[1..], f)
  }

  lemma {:induction false} OccurrencesAppend(a: seq<Field>, b: seq<Field>, f: Field)
    ensures Occurrences(a + b, f) == Occurrences(a, f) + Occurrences(b, f)
    decreases |a|
  {
    if a == [] {
      assert a + b == b;
    } else {
      assert (a + b)[1..] == a[1..] + b;
      OccurrencesAppend(a[1..], b, f);
    }
  }

  /** `high_replication` is in the VIDEO_TRACK|VERBOSE and AUDIO_TRACK groups, once each. */
  lemma HighReplicationIn(g: GroupName)
    ensures Occurrences(GroupFields(g), HighReplication) == if g == VideoTrackVerbose || g == AudioTrack then 1 else 0
  {
    var fields := GroupFields(g);
    if g == VideoTrackVerbose || g == AudioTrack {
      var init := fields[..|fields| - 1];
      assert fields == init + [HighReplication];
      OccurrencesAppend(init, [HighReplication], HighReplication);
      OccurrencesAbsent(init, HighReplication);
      assert Occurrences([HighReplication], HighReplication) == 1 by {
        assert [HighReplication][1..] == [];
      }
    } else {
      OccurrencesAbsent(fields, HighReplication);
    }
  }

  lemma {:induction false} OccurrencesAbsent(fields: seq<Field>, f: Field)
    requires f !in fields
    ensures Occurrences(fields, f) == 0
    decreases |fields|
  {
    if fields != [] {
      OccurrencesAbsent(fields[1..], f);
    }
  }

  /**
   * `high_replication` is written once for each of VIDEO_TRACK|VERBOSE and
   * AUDIO_TRACK the level contains, so twice when it contains both.
   */
  lemma HighReplicationTwice(level: Level)
    ensures Occurrences(FieldsOf(level), HighReplication) ==
      (if Contains(level, VIDEO_TRACK | VERBOSE) then 1 else 0) + (if Contains(level, AUDIO_TRACK) then 1 else 0)
  {
    var h := HighReplication;
    var s1, s2, s3, s4 := Selected(level, General), Selected(level, GeneralVerbose), Selected(level, VideoTrack), Selected(level, VideoTrackVerbose);
    var s5, s6, s7 := Selected(level, AudioTrack), Selected(level, AudioTrackVerbose), Selected(level, Everything);
    OccurrencesAppend(s1, s2, h);
    OccurrencesAppend(s1 + s2, s3, h);
    OccurrencesAppend(s1 + s2 + s3, s4, h);
    OccurrencesAppend(s1 + s2 + s3 + s4, s5, h);
    OccurrencesAppend(s1 + s2 + s3 + s4 + s5, s6, h);
    OccurrencesAppend(s1 + s2 + s3 + s4 + s5 + s6, s7, h);
    HighReplicationIn(General);
    HighReplicationIn(GeneralVerbose);
    HighReplicationIn(VideoTrack);
    HighReplicationIn(VideoTrackVerbose);
    HighReplicationIn(AudioTrack);
    HighReplicationIn(AudioTrackVerbose);
    HighReplicationIn(Everything);
  }

  /** The `all()` group needs every flag: for a parsed level, only `all` itself. */
  lemma AllGroupNeedsEveryFlag(level: Level)
    requires Contains(ALL, level)
    ensures IndexRange in FieldsOf(level) <==> level == ALL
  {
    FieldSelected(level, IndexRange);
  }

  /** The map being written: the keys in the order they were written. */
  class MapWriter {
    var keys: seq<string>

    constructor ()
      ensures keys == []
    {
      keys := [];
    }

    /** `SerializeMap::serialize_entry` */
    method SerializeEntry(key: string)
      modifies this
      ensures keys == old(keys) + [key]
    {
      keys := keys + [key];
    }
  }

  /** The keys of a run of fields. */
  function Keys(fields: seq<Field>): (r: seq<string>)
    ensures |r| == |fields|
  {
    seq(|fields|, i requires 0 <= i < |fields| => KeyOf(fields[i]))
  }

  lemma KeysAppend(a: seq<Field>, b: seq<Field>)
    ensures Keys(a + b) == Keys(a) + Keys(b)
  {
    forall i | 0 <= i < |a + b|
      ensures Keys(a + b)[i] == (Keys(a) + Keys(b))[i]
    {
      if i < |a| {
        assert (a + b)[i] == a[i];
      } else {
        assert (a + b)[i] == b[i - |a|];
      }
    }
  }

  /** The keys of all groups are the keys of each group, in order. */
  lemma KeysOfFields(level: Level)
    ensures Keys(FieldsOf(level)) ==
      Keys(Selected(level, General)) + Keys(Selected(level, GeneralVerbose)) + Keys(Selected(level, VideoTrack))
      + Keys(Selected(level, VideoTrackVerbose)) + Keys(Selected(level, AudioTrack))
      + Keys(Selected(level, AudioTrackVerbose)) + Keys(Selected(level, Everything))
  {
    var s1, s2, s3, s4 := Selected(level, General), Selected(level, GeneralVerbose), Selected(level, VideoTrack), Selected(level, VideoTrackVerbose);
    var s5, s6, s7 := Selected(level, AudioTrack), Selected(level, AudioTrackVerbose), Selected(level, Everything);
    KeysAppend(s1, s2);
    KeysAppend(s1 + s2, s3);
    KeysAppend(s1 + s2 + s3, s4);
    KeysAppend(s1 + s2 + s3 + s4, s5);
    KeysAppend(s1 + s2 + s3 + s4 + s5, s6);
    KeysAppend(s1 + s2 + s3 + s4 + s5 + s6, s7);
  }

  /** The inner repetition of `partly_serialize!`: one entry per field of a selected group. */
  method WriteGroup(out: MapWriter, level: Level, g: GroupName)
    modifies out
    ensures out.keys == old(out.keys) + Keys(Selected(level, g))
  {
    if level & Mask(g) == Mask(g) {
      var fields := GroupFields(g);
      var i := 0;
      while i < |fields|
        invariant 0 <= i <= |fields|
        invariant out.keys == old(out.keys) + Keys(fields[..i])
      {
        out.SerializeEntry(KeyOf(fields[i]));
        i := i + 1;
      }
      assert fields[..i] == fields;
    }
  }

  lemma Reassociate(a: seq<string>, b: seq<string>, c: seq<string>)
    ensures a + b + c == a + (b + c)
  {
  }

  /** `FormatSerializer`: one format and the level it is printed at. */
  datatype FormatSerializer<F> = FormatSerializer(outputLevel: Level, format: F)

  /** `FormatSerializer::serialize`: the groups written one after the other. */
  method SerializeFormat<F>(fs: FormatSerializer<F>, out: MapWriter)
    modifies out
    ensures out.keys == old(out.keys) + Keys(FieldsOf(fs.outputLevel))
  {
    var level := fs.outputLevel;
    ghost var start := out.keys;
    ghost var written: seq<string> := [];
    WriteGroup(out, level, General);
    written := Keys(Selected(level, General));
    WriteGroup(out, level, GeneralVerbose);
    Reassociate(start, written, Keys(Selected(level, GeneralVerbose)));
    written := written + Keys(Selected(level, GeneralVerbose));
    WriteGroup(out, level, VideoTrack);
    Reassociate(start, written, Keys(Selected(level, VideoTrack)));
    written := written + Keys(Selected(level, VideoTrack));
    WriteGroup(out, level, VideoTrackVerbose);
    Reassociate(start, written, Keys(Selected(level, VideoTrackVerbose)));
    written := written + Keys(Selected(level, VideoTrackVerbose));
    WriteGroup(out, level, AudioTrack);
    Reassociate(start, written, Keys(Selected(level, AudioTrack)));
    written := written + Keys(Selected(level, AudioTrack));
    WriteGroup(out, level, AudioTrackVerbose);
    Reassociate(start, written, Keys(Selected(level, AudioTrackVerbose)));
    written := written + Keys(Selected(level, AudioTrackVerbose));
    WriteGroup(out, level, Everything);
    Reassociate(start, written, Keys(Selected(level, Everything)));
    written := written + Keys(Selected(level, Everything));
    KeysOfFields(level);
  }

  /** The parts of a `VideoInfo` the printer reads. */
  datatype VideoInfo<D, F> = VideoInfo(videoDetails: D, formats: seq<F>)

  /** `ResultSerializer` */
  datatype ResultSerializer<D, F> = ResultSerializer(outputLevel: Level, videoInfo: VideoInfo<D, F>, formats: seq<FormatSerializer<F>>)

  /**
   * `ResultSerializer::new`: one format printer per format of the video,
   * in the same order, each at the given level.
   */
  function NewResultSerializer<D, F>(info: VideoInfo<D, F>, level: Level): (r: ResultSerializer<D, F>)
    ensures r.outputLevel == level && r.videoInfo == info
    ensures |r.formats| == |info.formats|
  {
    ResultSerializer(level, info, seq(|info.formats|, i requires 0 <= i < |info.formats| => FormatSerializer(level, info.formats[i])))
  }

  /** The printers hand back exactly the video's formats, and every one prints the same fields. */
  lemma NewKeepsFormats<D, F>(info: VideoInfo<D, F>, level: Level)
    ensures var r := NewResultSerializer(info, level);
      forall i :: 0 <= i < |r.formats| ==> r.formats[i].format == info.formats[i] && r.formats[i].outputLevel == r.outputLevel
  {
  }

  /** The keys of the top-level map: `video_info` when the level holds VIDEO, then `streams` always. */
  function TopKeys(level: Level): (r: seq<string>)
    ensures |r| >= 1 && r[|r| - 1] == "streams"
    ensures "video_info" in r <==> Contains(level, VIDEO)
  {
    (if Contains(level, VIDEO) then ["video_info"] else []) + ["streams"]
  }

  /** `ResultSerializer::serialize`: the top-level entries. */
  method SerializeResult<D, F>(rs: ResultSerializer<D, F>, out: MapWriter)
    modifies out
    ensures out.keys == old(out.keys) + TopKeys(rs.outputLevel)
  {
    if rs.outputLevel & VIDEO == VIDEO {
      out.SerializeEntry("video_info");
    }
    out.SerializeEntry("streams");
  }
}
