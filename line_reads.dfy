/**
 * Each line `dumps` writes is read back by `loads` into the canonical form
 * of the entry it came from.
 */
module LineReads {
  import opened Wrappers
  import opened Text
  import opened AttributeList
  import opened Media
  import opened Entities
  import opened Serializer
  import opened Parser
  import opened Canonical
  import MediaList

  // ---- writable slots ----

  /** An attribute name: no '=' and on one line. */
  predicate AttrName(n: string)
  {
    forall k :: 0 <= k < |n| ==> n[k] != '=' && n[k] != '\n'
  }

  lemma MediaNamesFront()
    ensures AttrName("URI") && AttrName("TYPE") && AttrName("GROUP-ID") && AttrName("LANGUAGE")
    ensures AttrName("ASSOC-LANGUAGE") && AttrName("NAME")
  {
  }

  lemma MediaNamesBack()
    ensures AttrName("DEFAULT") && AttrName("AUTOSELECT") && AttrName("FORCED")
    ensures AttrName("INSTREAM-ID") && AttrName("CHARACTERISTICS")
  {
  }

  lemma StreamNamesFront()
    ensures AttrName("PROGRAM-ID") && AttrName("BANDWIDTH") && AttrName("AVERAGE-BANDWIDTH")
    ensures AttrName("RESOLUTION") && AttrName("CODECS")
  {
  }

  lemma StreamNamesBack()
    ensures AttrName("AUDIO") && AttrName("VIDEO") && AttrName("SUBTITLES") && AttrName("CLOSED-CAPTIONS")
  {
  }

  lemma QuotedWritable(n: string, o: Option<string>)
    requires AttrName(n) && OptQuoted(o)
    ensures Writable(QuotedSlot(n, o))
  {
  }

  lemma BareWritable(n: string, o: Option<string>)
    requires AttrName(n) && OptBare(o)
    ensures Writable(BareSlot(n, o))
  {
  }

  lemma NatWritable(n: string, o: Option<nat>)
    requires AttrName(n)
    ensures Writable(NatSlot(n, o))
  {
    if o.Some? {
      NatStringAvoids(o.value, ',');
      NatStringAvoids(o.value, '\n');
    }
  }

  lemma FlagWritable(n: string, f: TriState)
    requires AttrName(n)
    ensures Writable(FlagSlot(n, f))
  {
  }

  /** The four TYPE values read as bare attribute values. */
  lemma TypeNameBare(t: MediaType)
    ensures |TypeName(t)| > 0 && ',' !in TypeName(t) && '"' !in TypeName(t) && '\n' !in TypeName(t)
  {
    match t
    case Audio =>
    case Video =>
    case Subtitles =>
    case ClosedCaptions =>
  }

  // ---- EXT-X-MEDIA ----

  /** The attributes of a writable rendition decode back and stay on one line. */
  lemma MediaAttrsRead(m: Media)
    requires MediaWritable(m)
    ensures Decode(Encode(MediaAttrs(m))) == Success(MediaAttrs(m))
    ensures '\n' !in Encode(MediaAttrs(m))
  {
    MediaNamesFront();
    MediaNamesBack();
    QuotedWritable("URI", m.uri);
    TypeNameBare(m.mediaType);
    QuotedWritable("LANGUAGE", m.language);
    QuotedWritable("ASSOC-LANGUAGE", m.assocLanguage);
    FlagWritable("DEFAULT", m.default);
    FlagWritable("AUTOSELECT", m.autoselect);
    FlagWritable("FORCED", m.forced);
    QuotedWritable("INSTREAM-ID", m.instreamId);
    QuotedWritable("CHARACTERISTICS", m.characteristics);
    PresentReads(MediaSlots(m));
  }

  /** The newline half of `MediaAttrsRead`, kept apart so that callers do not see `Decode`. */
  lemma MediaAttrsOneLine(m: Media)
    requires MediaWritable(m)
    ensures '\n' !in Encode(MediaAttrs(m))
  {
    MediaAttrsRead(m);
  }

  lemma MediaDistinct(m: Media)
    ensures DistinctNames(MediaSlots(m))
  {
  }

  lemma MediaGetsUriTypeGroupLanguage(m: Media)
    ensures ValueOf(ToMap(MediaAttrs(m)), "URI") == NonEmpty(m.uri)
    ensures ValueOf(ToMap(MediaAttrs(m)), "TYPE") == Some(TypeName(m.mediaType))
    ensures ValueOf(ToMap(MediaAttrs(m)), "GROUP-ID") == Some(m.groupId)
    ensures ValueOf(ToMap(MediaAttrs(m)), "LANGUAGE") == NonEmpty(m.language)
  {
    var sl := MediaSlots(m);
    MediaDistinct(m);
    GetSlot(sl, 0, "URI", NonEmpty(m.uri));
    GetSlot(sl, 1, "TYPE", Some(TypeName(m.mediaType)));
    GetSlot(sl, 2, "GROUP-ID", Some(m.groupId));
    GetSlot(sl, 3, "LANGUAGE", NonEmpty(m.language));
  }

  lemma MediaGetsAssocNameDefaultAutoselect(m: Media)
    ensures ValueOf(ToMap(MediaAttrs(m)), "ASSOC-LANGUAGE") == NonEmpty(m.assocLanguage)
    ensures ValueOf(ToMap(MediaAttrs(m)), "NAME") == Some(m.name)
    ensures ValueOf(ToMap(MediaAttrs(m)), "DEFAULT") == FlagValue(m.default)
    ensures ValueOf(ToMap(MediaAttrs(m)), "AUTOSELECT") == FlagValue(m.autoselect)
  {
    var sl := MediaSlots(m);
    MediaDistinct(m);
    GetSlot(sl, 4, "ASSOC-LANGUAGE", NonEmpty(m.assocLanguage));
    GetSlot(sl, 5, "NAME", Some(m.name));
    GetSlot(sl, 6, "DEFAULT", FlagValue(m.default));
    GetSlot(sl, 7, "AUTOSELECT", FlagValue(m.autoselect));
  }

  lemma MediaGetsForcedInstreamCharacteristics(m: Media)
    ensures ValueOf(ToMap(MediaAttrs(m)), "FORCED") == FlagValue(m.forced)
    ensures ValueOf(ToMap(MediaAttrs(m)), "INSTREAM-ID") == NonEmpty(m.instreamId)
    ensures ValueOf(ToMap(MediaAttrs(m)), "CHARACTERISTICS") == NonEmpty(m.characteristics)
  {
    var sl := MediaSlots(m);
    MediaDistinct(m);
    GetSlot(sl, 8, "FORCED", FlagValue(m.forced));
    GetSlot(sl, 9, "INSTREAM-ID", NonEmpty(m.instreamId));
    GetSlot(sl, 10, "CHARACTERISTICS", NonEmpty(m.characteristics));
  }

  /** The attributes of an EXT-X-MEDIA line are the getters of its canonical rendition. */
  lemma MediaArgsRead(m: Media)
    ensures MediaArgsOf(ToMap(MediaAttrs(m))) == Args(CanonMedia(m))
  {
    MediaGetsUriTypeGroupLanguage(m);
    MediaGetsAssocNameDefaultAutoselect(m);
    MediaGetsForcedInstreamCharacteristics(m);
  }

  /** How an EXT-X-MEDIA line is read, with its attribute text and their meaning given. */
  lemma MediaOfText(line: string, attrs: seq<Attr>, m: Media)
    requires StartsWith(line, MediaTag) && line[|MediaTag|..] == Encode(attrs)
    requires Decode(Encode(attrs)) == Success(attrs) && NewMedia(MediaArgsOf(ToMap(attrs))) == Success(m)
    ensures MediaOf(line) == Success(m)
  {
  }

  /** An EXT-X-MEDIA line is one line and is recognised by its tag. */
  lemma MediaLineShape(m: Media)
    requires MediaWritable(m)
    ensures '\n' !in MediaLine(m) && StartsWith(MediaLine(m), MediaTag)
  {
    MediaAttrsOneLine(m);
    TagLine(MediaTag, Encode(MediaAttrs(m)));
  }

  /** A tag followed by one line of text is one line that starts with the tag. */
  lemma TagLine(tag: string, x: string)
    requires '\n' !in tag && '\n' !in x
    ensures '\n' !in tag + x && StartsWith(tag + x, tag)
  {
    StartsWithConcat(tag, x);
  }

  /** An EXT-X-MEDIA line reads back as the canonical rendition. */
  lemma MediaLineReads(m: Media)
    requires MediaWritable(m)
    ensures MediaOf(MediaLine(m)) == Success(CanonMedia(m))
  {
    var attrs := MediaAttrs(m);
    MediaAttrsRead(m);
    StartsWithConcat(MediaTag, Encode(attrs));
    MediaArgsRead(m);
    NewMediaArgs(CanonMedia(m));
    MediaOfText(MediaLine(m), attrs, CanonMedia(m));
  }

  // ---- EXT-X-STREAM-INF ----

  /** The text an optional integer attribute writes. */
  function NatText(o: Option<nat>): Option<string>
  {
    if o.Some? then Some(NatToString(o.value)) else None
  }

  lemma OptNatRead(attrs: AttrMap, name: string, o: Option<nat>, line: string)
    requires ValueOf(attrs, name) == NatText(o)
    ensures OptNatAttr(attrs, name, line) == Success(o)
  {
    if o.Some? {
      ParseNatToString(o.value);
    }
  }

  lemma NatRead(attrs: AttrMap, name: string, n: nat, line: string)
    requires ValueOf(attrs, name) == Some(NatToString(n))
    ensures NatAttr(attrs, name, line) == Success(n)
  {
    ParseNatToString(n);
  }

  lemma StreamAttrsRead(p: Playlist)
    requires PlaylistWritable(p)
    ensures Decode(Encode(StreamInfAttrs(p))) == Success(StreamInfAttrs(p))
    ensures '\n' !in Encode(StreamInfAttrs(p))
  {
    var info := p.streamInfo;
    StreamNamesFront();
    StreamNamesBack();
    NatWritable("PROGRAM-ID", info.programId);
    NatWritable("BANDWIDTH", Some(info.bandwidth));
    NatWritable("AVERAGE-BANDWIDTH", info.averageBandwidth);
    BareWritable("RESOLUTION", info.resolution);
    QuotedWritable("CODECS", info.codecs);
    assert OptQuoted(EmittedRef(p, Audio)) && OptQuoted(EmittedRef(p, Video));
    assert OptQuoted(EmittedRef(p, Subtitles)) && OptQuoted(EmittedRef(p, ClosedCaptions));
    QuotedWritable("AUDIO", EmittedRef(p, Audio));
    QuotedWritable("VIDEO", EmittedRef(p, Video));
    QuotedWritable("SUBTITLES", EmittedRef(p, Subtitles));
    QuotedWritable("CLOSED-CAPTIONS", EmittedRef(p, ClosedCaptions));
    PresentReads(StreamInfSlots(p));
  }

  lemma StreamDistinct(p: Playlist)
    ensures DistinctNames(StreamInfSlots(p))
  {
  }

  lemma StreamGetsProgramBandwidthAverage(p: Playlist)
    ensures ValueOf(ToMap(StreamInfAttrs(p)), "PROGRAM-ID") == NatText(p.streamInfo.programId)
    ensures ValueOf(ToMap(StreamInfAttrs(p)), "BANDWIDTH") == Some(NatToString(p.streamInfo.bandwidth))
    ensures ValueOf(ToMap(StreamInfAttrs(p)), "AVERAGE-BANDWIDTH") == NatText(p.streamInfo.averageBandwidth)
  {
    var sl := StreamInfSlots(p);
    StreamDistinct(p);
    GetSlot(sl, 0, "PROGRAM-ID", NatText(p.streamInfo.programId));
    GetSlot(sl, 1, "BANDWIDTH", Some(NatToString(p.streamInfo.bandwidth)));
    GetSlot(sl, 2, "AVERAGE-BANDWIDTH", NatText(p.streamInfo.averageBandwidth));
  }

  lemma StreamGetsResolutionCodecsAudio(p: Playlist)
    ensures ValueOf(ToMap(StreamInfAttrs(p)), "RESOLUTION") == NonEmpty(p.streamInfo.resolution)
    ensures ValueOf(ToMap(StreamInfAttrs(p)), "CODECS") == NonEmpty(p.streamInfo.codecs)
    ensures ValueOf(ToMap(StreamInfAttrs(p)), "AUDIO") == EmittedRef(p, Audio)
  {
    var sl := StreamInfSlots(p);
    StreamDistinct(p);
    GetSlot(sl, 3, "RESOLUTION", NonEmpty(p.streamInfo.resolution));
    GetSlot(sl, 4, "CODECS", NonEmpty(p.streamInfo.codecs));
    GetSlot(sl, 5, "AUDIO", EmittedRef(p, Audio));
  }

  lemma StreamGetsVideoSubtitlesCaptions(p: Playlist)
    ensures ValueOf(ToMap(StreamInfAttrs(p)), "VIDEO") == EmittedRef(p, Video)
    ensures ValueOf(ToMap(StreamInfAttrs(p)), "SUBTITLES") == EmittedRef(p, Subtitles)
    ensures ValueOf(ToMap(StreamInfAttrs(p)), "CLOSED-CAPTIONS") == EmittedRef(p, ClosedCaptions)
  {
    var sl := StreamInfSlots(p);
    StreamDistinct(p);
    GetSlot(sl, 6, "VIDEO", EmittedRef(p, Video));
    GetSlot(sl, 7, "SUBTITLES", EmittedRef(p, Subtitles));
    GetSlot(sl, 8, "CLOSED-CAPTIONS", EmittedRef(p, ClosedCaptions));
  }

  /** The EXT-X-STREAM-INF attribute that names the rendition group of type `t`. */
  function RefName(t: MediaType): string
  {
    match t
    case Audio => "AUDIO"
    case Video => "VIDEO"
    case Subtitles => "SUBTITLES"
    case ClosedCaptions => "CLOSED-CAPTIONS"
  }

  /**
   * A variant stream writes a group reference exactly when its stream info
   * names a non-empty group and its own renditions hold one of that type and
   * group; the value written is the group named. A variant without renditions
   * writes none, whatever its stream info says.
   */
  lemma GroupWrittenWhenBacked(p: Playlist, t: MediaType)
    ensures var g := GroupRef(p.streamInfo, t);
            ValueOf(ToMap(StreamInfAttrs(p)), RefName(t)).Some? <==>
              g.Some? && |g.value| > 0 && HasRendition(p.media, t, g.value)
    ensures ValueOf(ToMap(StreamInfAttrs(p)), RefName(t)).Some? ==>
              ValueOf(ToMap(StreamInfAttrs(p)), RefName(t)) == GroupRef(p.streamInfo, t)
  {
    StreamGetsResolutionCodecsAudio(p);
    StreamGetsVideoSubtitlesCaptions(p);
    match t
    case Audio =>
    case Video =>
    case Subtitles =>
    case ClosedCaptions =>
  }

  /** The attributes of an EXT-X-STREAM-INF line give the canonical stream info. */
  lemma StreamInfoRead(p: Playlist, line: string)
    ensures StreamInfoOf(ToMap(StreamInfAttrs(p)), line) == Success(CanonInfo(p))
  {
    var attrs := ToMap(StreamInfAttrs(p));
    StreamGetsProgramBandwidthAverage(p);
    StreamGetsResolutionCodecsAudio(p);
    StreamGetsVideoSubtitlesCaptions(p);
    NatRead(attrs, "BANDWIDTH", p.streamInfo.bandwidth, line);
    OptNatRead(attrs, "PROGRAM-ID", p.streamInfo.programId, line);
    OptNatRead(attrs, "AVERAGE-BANDWIDTH", p.streamInfo.averageBandwidth, line);
  }

  lemma StreamInfOfText(st: ParserState, line: string, attrs: seq<Attr>, info: StreamInfo)
    requires StartsWith(line, StreamInfTag) && line[|StreamInfTag|..] == Encode(attrs)
    requires Decode(Encode(attrs)) == Success(attrs) && StreamInfoOf(ToMap(attrs), line) == Success(info)
    ensures StreamInfStep(st, line) == Success(st.(pending := Some(info)))
  {
  }

  /** A line made of the EXT-X-STREAM-INF tag and one line of text is one line and starts with that tag only. */
  lemma StreamInfTagOnly(x: string)
    requires '\n' !in x
    ensures '\n' !in StreamInfTag + x && StartsWith(StreamInfTag + x, StreamInfTag)
    ensures !StartsWith(StreamInfTag + x, MediaTag)
  {
    var line := StreamInfTag + x;
    StartsWithConcat(StreamInfTag, x);
    assert line[7] == 'S';
    NotStartsWith(line, MediaTag, 7);
  }

  /** An EXT-X-STREAM-INF line is one line and is recognised by its own tag only. */
  lemma StreamInfLineShape(p: Playlist)
    requires PlaylistWritable(p)
    ensures '\n' !in StreamInfLine(p) && StartsWith(StreamInfLine(p), StreamInfTag)
    ensures !StartsWith(StreamInfLine(p), MediaTag)
  {
    StreamAttrsRead(p);
    StreamInfTagOnly(Encode(StreamInfAttrs(p)));
  }

  /** An EXT-X-STREAM-INF line leaves the canonical stream info pending. */
  lemma StreamInfLineReads(st: ParserState, p: Playlist)
    requires PlaylistWritable(p)
    ensures StreamInfStep(st, StreamInfLine(p)) == Success(st.(pending := Some(CanonInfo(p))))
  {
    var attrs := StreamInfAttrs(p);
    StreamAttrsRead(p);
    StartsWithConcat(StreamInfTag, Encode(attrs));
    StreamInfoRead(p, StreamInfLine(p));
    StreamInfOfText(st, StreamInfLine(p), attrs, CanonInfo(p));
  }

  // ---- EXT-X-I-FRAME-STREAM-INF ----

  lemma IFrameAttrsRead(f: IFramePlaylist)
    requires IFrameWritable(f)
    ensures Decode(Encode(IFrameAttrs(f))) == Success(IFrameAttrs(f))
    ensures '\n' !in Encode(IFrameAttrs(f))
  {
    var info := f.iframeStreamInfo;
    StreamNamesFront();
    MediaNamesFront();
    NatWritable("PROGRAM-ID", info.programId);
    NatWritable("BANDWIDTH", Some(info.bandwidth));
    BareWritable("RESOLUTION", info.resolution);
    QuotedWritable("CODECS", info.codecs);
    QuotedWritable("URI", Some(f.uri));
    PresentReads(IFrameSlots(f));
  }

  lemma IFrameDistinct(f: IFramePlaylist)
    ensures DistinctNames(IFrameSlots(f))
  {
  }

  lemma IFrameGets(f: IFramePlaylist)
    ensures ValueOf(ToMap(IFrameAttrs(f)), "PROGRAM-ID") == NatText(f.iframeStreamInfo.programId)
    ensures ValueOf(ToMap(IFrameAttrs(f)), "BANDWIDTH") == Some(NatToString(f.iframeStreamInfo.bandwidth))
    ensures ValueOf(ToMap(IFrameAttrs(f)), "RESOLUTION") == NonEmpty(f.iframeStreamInfo.resolution)
    ensures ValueOf(ToMap(IFrameAttrs(f)), "CODECS") == NonEmpty(f.iframeStreamInfo.codecs)
    ensures ValueOf(ToMap(IFrameAttrs(f)), "URI") == Some(f.uri)
  {
    var sl := IFrameSlots(f);
    IFrameDistinct(f);
    GetSlot(sl, 0, "PROGRAM-ID", NatText(f.iframeStreamInfo.programId));
    GetSlot(sl, 1, "BANDWIDTH", Some(NatToString(f.iframeStreamInfo.bandwidth)));
    GetSlot(sl, 2, "RESOLUTION", NonEmpty(f.iframeStreamInfo.resolution));
    GetSlot(sl, 3, "CODECS", NonEmpty(f.iframeStreamInfo.codecs));
    GetSlot(sl, 4, "URI", Some(f.uri));
  }

  lemma IFramePlaylistRead(f: IFramePlaylist, line: string)
    ensures IFramePlaylistOf(ToMap(IFrameAttrs(f)), line) == Success(CanonIFrame(f))
  {
    var attrs := ToMap(IFrameAttrs(f));
    IFrameGets(f);
    NatRead(attrs, "BANDWIDTH", f.iframeStreamInfo.bandwidth, line);
    OptNatRead(attrs, "PROGRAM-ID", f.iframeStreamInfo.programId, line);
  }

  lemma IFrameOfText(st: ParserState, line: string, attrs: seq<Attr>, f: IFramePlaylist)
    requires StartsWith(line, IFrameStreamInfTag) && line[|IFrameStreamInfTag|..] == Encode(attrs)
    requires Decode(Encode(attrs)) == Success(attrs) && IFramePlaylistOf(ToMap(attrs), line) == Success(f)
    ensures IFrameStep(st, line) == Success(st.(doc := st.doc.(iframePlaylists := st.doc.iframePlaylists + [f])))
  {
  }

  /** A line made of the I-frame tag and one line of text is one line and is not read as either of the other two tags. */
  lemma IFrameTagOnly(x: string)
    requires '\n' !in x
    ensures '\n' !in IFrameStreamInfTag + x && StartsWith(IFrameStreamInfTag + x, IFrameStreamInfTag)
    ensures !StartsWith(IFrameStreamInfTag + x, MediaTag) && !StartsWith(IFrameStreamInfTag + x, StreamInfTag)
  {
    var line := IFrameStreamInfTag + x;
    StartsWithConcat(IFrameStreamInfTag, x);
    assert line[7] == 'I';
    NotStartsWith(line, MediaTag, 7);
    NotStartsWith(line, StreamInfTag, 7);
  }

  /** An EXT-X-I-FRAME-STREAM-INF line is one line and is recognised by its own tag only. */
  lemma IFrameLineShape(f: IFramePlaylist)
    requires IFrameWritable(f)
    ensures '\n' !in IFrameLine(f) && StartsWith(IFrameLine(f), IFrameStreamInfTag)
    ensures !StartsWith(IFrameLine(f), MediaTag) && !StartsWith(IFrameLine(f), StreamInfTag)
  {
    IFrameAttrsRead(f);
    IFrameTagOnly(Encode(IFrameAttrs(f)));
  }

  /** An EXT-X-I-FRAME-STREAM-INF line adds the canonical I-frame stream. */
  lemma IFrameLineReads(st: ParserState, f: IFramePlaylist)
    requires IFrameWritable(f)
    ensures IFrameStep(st, IFrameLine(f)) == Success(st.(doc := st.doc.(iframePlaylists := st.doc.iframePlaylists + [CanonIFrame(f)])))
  {
    var attrs := IFrameAttrs(f);
    IFrameAttrsRead(f);
    StartsWithConcat(IFrameStreamInfTag, Encode(attrs));
    IFramePlaylistRead(f, IFrameLine(f));
    IFrameOfText(st, IFrameLine(f), attrs, CanonIFrame(f));
  }

  // ---- one step of the parser per line ----

  lemma StepMedia(st: ParserState, m: Media)
    requires MediaWritable(m)
    ensures Step(st, MediaLine(m)) == Success(st.(doc := st.doc.(media := MediaList.Add(st.doc.media, CanonMedia(m), false))))
  {
    MediaLineShape(m);
    MediaLineReads(m);
  }

  lemma StepStreamInf(st: ParserState, p: Playlist)
    requires PlaylistWritable(p)
    ensures Step(st, StreamInfLine(p)) == Success(st.(pending := Some(CanonInfo(p))))
  {
    StreamInfLineShape(p);
    StreamInfLineReads(st, p);
  }

  lemma StepIFrame(st: ParserState, f: IFramePlaylist)
    requires IFrameWritable(f)
    ensures Step(st, IFrameLine(f)) == Success(st.(doc := st.doc.(iframePlaylists := st.doc.iframePlaylists + [CanonIFrame(f)])))
  {
    IFrameLineShape(f);
    IFrameLineReads(st, f);
  }

  /** A URI line is none of the tags, so it goes to the pending variant or becomes a segment. */
  lemma StepUri(st: ParserState, u: string)
    requires UriLine(u)
    ensures Step(st, u) == Success(UriStep(st, u))
  {
    NotStartsWith(u, MediaTag, 0);
    NotStartsWith(u, StreamInfTag, 0);
    NotStartsWith(u, IFrameStreamInfTag, 0);
  }
}
