/**
 * `loads` for the grammar `dumps` writes: a single pass over the lines,
 * keeping the attributes of an EXT-X-STREAM-INF pending until the URI line
 * that completes its variant stream.
 */
module Parser {
  import opened Wrappers
  import opened Text
  import opened AttributeList
  import opened Media
  import opened Entities
  import MediaList
  import opened Serializer

  datatype ParseError =
    | MissingHeader                                   // the first line is not #EXTM3U
    | BadAttributeList(line: string, syntax: AttrError)
    | BadMedia(line: string, invalid: InvalidMedia)
    | MissingAttribute(line: string, name: string)    // BANDWIDTH, or the URI of an I-frame stream
    | BadNumber(line: string, name: string)           // an integer attribute that is not a decimal numeral
    | MissingUri                                      // an EXT-X-STREAM-INF with no URI line after it

  /** What the parser has built so far, and the attributes of a variant stream still waiting for its URI. */
  datatype ParserState = ParserState(doc: Manifest, pending: Option<StreamInfo>)

  const Initial := ParserState(Manifest([], [], [], []), None)

  /** The constructor arguments an EXT-X-MEDIA line supplies. */
  function MediaArgsOf(attrs: AttrMap): MediaArgs
  {
    MediaArgs(ValueOf(attrs, "URI"), ValueOf(attrs, "TYPE"), ValueOf(attrs, "GROUP-ID"), ValueOf(attrs, "LANGUAGE"),
              ValueOf(attrs, "ASSOC-LANGUAGE"), ValueOf(attrs, "NAME"), ValueOf(attrs, "DEFAULT"),
              ValueOf(attrs, "AUTOSELECT"), ValueOf(attrs, "FORCED"), ValueOf(attrs, "CHARACTERISTICS"),
              ValueOf(attrs, "INSTREAM-ID"))
  }

  /** An optional integer attribute: absent, or a decimal numeral. */
  function OptNatAttr(attrs: AttrMap, name: string, line: string): (r: Result<Option<nat>, ParseError>)
    ensures r.Success? <==> ValueOf(attrs, name).None? || ParseNat(ValueOf(attrs, name).value).Some?
  {
    match ValueOf(attrs, name)
    case None => Success(None)
    case Some(s) =>
      match ParseNat(s)
      case None => Failure(BadNumber(line, name))
      case Some(n) => Success(Some(n))
  }

  /** A required integer attribute. */
  function NatAttr(attrs: AttrMap, name: string, line: string): (r: Result<nat, ParseError>)
    ensures r.Success? <==> ValueOf(attrs, name).Some? && ParseNat(ValueOf(attrs, name).value).Some?
    ensures r.Success? ==> Some(r.value) == ParseNat(ValueOf(attrs, name).value)
  {
    match ValueOf(attrs, name)
    case None => Failure(MissingAttribute(line, name))
    case Some(s) =>
      match ParseNat(s)
      case None => Failure(BadNumber(line, name))
      case Some(n) => Success(n)
  }

  function StreamInfoOf(attrs: AttrMap, line: string): Result<StreamInfo, ParseError>
  {
    var bandwidth :- NatAttr(attrs, "BANDWIDTH", line);
    var programId :- OptNatAttr(attrs, "PROGRAM-ID", line);
    var average :- OptNatAttr(attrs, "AVERAGE-BANDWIDTH", line);
    Success(StreamInfo(bandwidth, programId, average, ValueOf(attrs, "RESOLUTION"), ValueOf(attrs, "CODECS"),
                       ValueOf(attrs, "AUDIO"), ValueOf(attrs, "VIDEO"), ValueOf(attrs, "SUBTITLES"),
                       ValueOf(attrs, "CLOSED-CAPTIONS")))
  }

  function IFramePlaylistOf(attrs: AttrMap, line: string): Result<IFramePlaylist, ParseError>
  {
    var bandwidth :- NatAttr(attrs, "BANDWIDTH", line);
    var programId :- OptNatAttr(attrs, "PROGRAM-ID", line);
    var uri := ValueOf(attrs, "URI");
    if uri.None? then Failure(MissingAttribute(line, "URI"))
    else Success(IFramePlaylist(uri.value,
                                IFrameStreamInfo(bandwidth, programId, ValueOf(attrs, "RESOLUTION"), ValueOf(attrs, "CODECS")),
                                None))
  }

  /** The renditions a variant stream refers to: those whose type and group its stream info names. */
  function RenditionsFor(ms: seq<Media>, info: StreamInfo): (r: seq<Media>)
    ensures forall m :: m in r <==> m in ms && GroupRef(info, m.mediaType) == Some(m.groupId)
  {
    if |ms| == 0 then []
    else if GroupRef(info, ms[0].mediaType) == Some(ms[0].groupId) then [ms[0]] + RenditionsFor(ms[1..], info)
    else RenditionsFor(ms[1..], info)
  }

  /** The attribute list after a tag, as a dictionary. */
  function Attributes(line: string, tag: string): Result<AttrMap, ParseError>
    requires StartsWith(line, tag)
  {
    match Decode(line[|tag|..])
    case Success(attrs) => Success(ToMap(attrs))
    case Failure(e) => Failure(BadAttributeList(line, e))
  }

  /** The rendition an EXT-X-MEDIA line describes, validated as the constructor validates it. */
  function MediaOf(line: string): Result<Media, ParseError>
    requires StartsWith(line, MediaTag)
  {
    var attrs :- Attributes(line, MediaTag);
    match NewMedia(MediaArgsOf(attrs))
    case Failure(e) => Failure(BadMedia(line, e))
    case Success(m) => Success(m)
  }

  /** An EXT-X-MEDIA line: a new rendition, kept only when no stored one has its key. */
  function MediaStep(st: ParserState, line: string): (r: Result<ParserState, ParseError>)
    requires StartsWith(line, MediaTag)
    ensures MediaList.UniqueKeys(st.doc.media) && r.Success? ==> MediaList.UniqueKeys(r.value.doc.media)
  {
    var m :- MediaOf(line);
    var media := MediaList.Add(st.doc.media, m, false);
    assert MediaList.UniqueKeys(st.doc.media) ==> MediaList.UniqueKeys(media) by {
      if MediaList.UniqueKeys(st.doc.media) { MediaList.AddUnique(st.doc.media, m, false); }
    }
    Success(st.(doc := st.doc.(media := media)))
  }

  /** An EXT-X-STREAM-INF line: its attributes wait for the URI line. */
  function StreamInfStep(st: ParserState, line: string): (r: Result<ParserState, ParseError>)
    requires StartsWith(line, StreamInfTag)
    ensures r.Success? ==> r.value.doc == st.doc && r.value.pending.Some?
  {
    var attrs :- Attributes(line, StreamInfTag);
    var info :- StreamInfoOf(attrs, line);
    Success(st.(pending := Some(info)))
  }

  /** An EXT-X-I-FRAME-STREAM-INF line: a new I-frame stream. */
  function IFrameStep(st: ParserState, line: string): (r: Result<ParserState, ParseError>)
    requires StartsWith(line, IFrameStreamInfTag)
    ensures r.Success? ==> r.value.doc.media == st.doc.media
  {
    var attrs :- Attributes(line, IFrameStreamInfTag);
    var f :- IFramePlaylistOf(attrs, line);
    Success(st.(doc := st.doc.(iframePlaylists := st.doc.iframePlaylists + [f])))
  }

  /** A URI line: it completes the pending variant stream, or else it is a media segment. */
  function UriStep(st: ParserState, line: string): (r: ParserState)
    ensures r.doc.media == st.doc.media && r.pending.None?
  {
    match st.pending
    case Some(info) =>
      var p := Playlist(line, info, RenditionsFor(st.doc.media, info), None);
      ParserState(st.doc.(playlists := st.doc.playlists + [p]), None)
    case None =>
      st.(doc := st.doc.(segments := st.doc.segments + [Segment(line, None)]))
  }

  /**
   * One line. Tags are recognised by prefix; other lines starting with '#'
   * and blank lines are skipped; anything else is a URI line. The rendition
   * keys stay unique.
   */
  function Step(st: ParserState, line: string): (r: Result<ParserState, ParseError>)
    ensures MediaList.UniqueKeys(st.doc.media) && r.Success? ==> MediaList.UniqueKeys(r.value.doc.media)
  {
    if StartsWith(line, MediaTag) then MediaStep(st, line)
    else if StartsWith(line, StreamInfTag) then StreamInfStep(st, line)
    else if StartsWith(line, IFrameStreamInfTag) then IFrameStep(st, line)
    else if |line| == 0 || line[0] == '#' then Success(st)
    else Success(UriStep(st, line))
  }

  /** The lines in order; parsing stops at the first error. */
  function ParseLines(st: ParserState, lines: seq<string>): (r: Result<ParserState, ParseError>)
    decreases |lines|
    ensures MediaList.UniqueKeys(st.doc.media) && r.Success? ==> MediaList.UniqueKeys(r.value.doc.media)
  {
    if |lines| == 0 then Success(st)
    else
      match Step(st, lines[0])
      case Failure(e) => Failure(e)
      case Success(next) => ParseLines(next, lines[1..])
  }

  /**
   * `loads(text)`: the first line must be #EXTM3U and no variant stream may be
   * left without its URI. The renditions of a loaded playlist have unique keys.
   */
  function Loads(text: string): (r: Result<Manifest, ParseError>)
    ensures r.Success? ==> MediaList.UniqueKeys(r.value.media)
  {
    var lines := Lines(text);
    if |lines| == 0 || lines[0] != Header then Failure(MissingHeader)
    else
      match ParseLines(Initial, lines[1..])
      case Failure(e) => Failure(e)
      case Success(st) => if st.pending.Some? then Failure(MissingUri) else Success(st.doc)
  }

  lemma {:induction false} ParseLinesAppend(st: ParserState, a: seq<string>, b: seq<string>)
    decreases |a|
    ensures ParseLines(st, a + b) ==
              match ParseLines(st, a)
              case Failure(e) => Failure(e)
              case Success(mid) => ParseLines(mid, b)
  {
    if |a| == 0 {
      assert a + b == b;
    } else {
      assert (a + b)[0] == a[0];
      assert (a + b)[1..] == a[1..] + b;
      match Step(st, a[0])
      case Failure(e) =>
      case Success(next) => ParseLinesAppend(next, a[1..], b);
    }
  }
}
