/**
 * The entries of a playlist besides renditions: variant streams, I-frame
 * variant streams and segments, and the aggregate state that holds them.
 * Attribute dictionaries are typed records with one required field, BANDWIDTH.
 */
module Entities {
  import opened Wrappers
  import opened Media

  /** The attributes of a variant stream (EXT-X-STREAM-INF). */
  datatype StreamInfo = StreamInfo(
    bandwidth: nat,
    programId: Option<nat>,
    averageBandwidth: Option<nat>,
    resolution: Option<string>,
    codecs: Option<string>,
    audio: Option<string>,
    video: Option<string>,
    subtitles: Option<string>,
    closedCaptions: Option<string>)

  /** The rendition group a variant stream names for one media type. */
  function GroupRef(info: StreamInfo, t: MediaType): Option<string>
  {
    match t
    case Audio => info.audio
    case Video => info.video
    case Subtitles => info.subtitles
    case ClosedCaptions => info.closedCaptions
  }

  /** A variant stream: its attributes, the renditions it refers to, and its URI as given. */
  datatype Playlist = Playlist(uri: string, streamInfo: StreamInfo, media: seq<Media>, baseUri: Option<string>)

  /** The attributes of an I-frame variant stream (EXT-X-I-FRAME-STREAM-INF). */
  datatype IFrameStreamInfo = IFrameStreamInfo(
    bandwidth: nat,
    programId: Option<nat>,
    resolution: Option<string>,
    codecs: Option<string>)

  datatype IFramePlaylist = IFramePlaylist(uri: string, iframeStreamInfo: IFrameStreamInfo, baseUri: Option<string>)

  /** A media segment; durations, titles and per-segment tags are not part of this model. */
  datatype Segment = Segment(uri: string, baseUri: Option<string>)

  /** The four collections of an M3U8 object, as a value. */
  datatype Manifest = Manifest(
    media: seq<Media>,
    playlists: seq<Playlist>,
    iframePlaylists: seq<IFramePlaylist>,
    segments: seq<Segment>)
}
