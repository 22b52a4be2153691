/**
 * `dumps` for master playlists: the EXTM3U header, one EXT-X-MEDIA line per
 * rendition, an EXT-X-STREAM-INF line and its URI line per variant stream, then
 * one EXT-X-I-FRAME-STREAM-INF line per I-frame variant stream, every line
 * ended by a line feed (sections 4.3.1.1, 4.3.4.1, 4.3.4.2 and 4.3.4.3 of
 * RFC 8216). Each tag writes its attributes in a fixed order, quotes string
 * attributes and leaves absent ones out.
 */
module Serializer {
  import opened Wrappers
  import opened Text
  import opened AttributeList
  import opened Media
  import opened Entities

  const Header: string := "#EXTM3U"
  const MediaTag: string := "#EXT-X-MEDIA:"
  const StreamInfTag: string := "#EXT-X-STREAM-INF:"
  const IFrameStreamInfTag: string := "#EXT-X-I-FRAME-STREAM-INF:"

  /** A string attribute is written only when present and not empty: no empty KEY= is emitted. */
  function NonEmpty(o: Option<string>): (r: Option<string>)
    ensures r.Some? <==> o.Some? && |o.value| > 0
    ensures r.Some? ==> r == o
  {
    if o.Some? && |o.value| > 0 then o else None
  }

  /** A quoted string slot, empty when the value is absent or empty. */
  function QuotedSlot(name: string, o: Option<string>): Slot
  {
    Slot(name, if NonEmpty(o).Some? then Some(Quoted(o.value)) else None)
  }

  function BareSlot(name: string, o: Option<string>): Slot
  {
    Slot(name, if NonEmpty(o).Some? then Some(Bare(o.value)) else None)
  }

  /** A decimal-integer slot. */
  function NatSlot(name: string, o: Option<nat>): Slot
  {
    Slot(name, if o.Some? then Some(Bare(NatToString(o.value))) else None)
  }

  /** A YES/NO slot, empty when the flag is unset. */
  function FlagSlot(name: string, f: TriState): Slot
  {
    Slot(name, if FlagValue(f).Some? then Some(Bare(FlagValue(f).value)) else None)
  }

  /** EXT-X-MEDIA attributes in their fixed order. */
  function MediaSlots(m: Media): seq<Slot>
  {
    [ QuotedSlot("URI", m.uri),
      Slot("TYPE", Some(Bare(TypeName(m.mediaType)))),
      Slot("GROUP-ID", Some(Quoted(m.groupId))),
      QuotedSlot("LANGUAGE", m.language),
      QuotedSlot("ASSOC-LANGUAGE", m.assocLanguage),
      Slot("NAME", Some(Quoted(m.name))),
      FlagSlot("DEFAULT", m.default),
      FlagSlot("AUTOSELECT", m.autoselect),
      FlagSlot("FORCED", m.forced),
      QuotedSlot("INSTREAM-ID", m.instreamId),
      QuotedSlot("CHARACTERISTICS", m.characteristics) ]
  }

  function MediaAttrs(m: Media): seq<Attr>
  {
    Present(MediaSlots(m))
  }

  /** The line opens with its tag, which is how `loads` tells the lines apart. */
  function MediaLine(m: Media): (r: string)
    ensures StartsWith(r, MediaTag)
  {
    StartsWithConcat(MediaTag, Encode(MediaAttrs(m)));
    MediaTag + Encode(MediaAttrs(m))
  }

  /** Whether `ms` holds a rendition of type `t` in group `g`. */
  predicate HasRendition(ms: seq<Media>, t: MediaType, g: string)
  {
    exists m :: m in ms && m.mediaType == t && m.groupId == g
  }

  /**
   * The group a variant stream writes for type `t`: the one its stream info
   * names, and only when the variant's own renditions include one of that type
   * and group.
   */
  function EmittedRef(p: Playlist, t: MediaType): Option<string>
  {
    var g := NonEmpty(GroupRef(p.streamInfo, t));
    if g.Some? && HasRendition(p.media, t, g.value) then g else None
  }

  /** EXT-X-STREAM-INF attributes in their fixed order. */
  function StreamInfSlots(p: Playlist): seq<Slot>
  {
    var info := p.streamInfo;
    [ NatSlot("PROGRAM-ID", info.programId),
      Slot("BANDWIDTH", Some(Bare(NatToString(info.bandwidth)))),
      NatSlot("AVERAGE-BANDWIDTH", info.averageBandwidth),
      BareSlot("RESOLUTION", info.resolution),
      QuotedSlot("CODECS", info.codecs),
      QuotedSlot("AUDIO", EmittedRef(p, Audio)),
      QuotedSlot("VIDEO", EmittedRef(p, Video)),
      QuotedSlot("SUBTITLES", EmittedRef(p, Subtitles)),
      QuotedSlot("CLOSED-CAPTIONS", EmittedRef(p, ClosedCaptions)) ]
  }

  function StreamInfAttrs(p: Playlist): seq<Attr>
  {
    Present(StreamInfSlots(p))
  }

  /** The line opens with its tag, which is how `loads` tells the lines apart. */
  function StreamInfLine(p: Playlist): (r: string)
    ensures StartsWith(r, StreamInfTag)
  {
    StartsWithConcat(StreamInfTag, Encode(StreamInfAttrs(p)));
    StreamInfTag + Encode(StreamInfAttrs(p))
  }

  /** EXT-X-I-FRAME-STREAM-INF attributes in their fixed order; the URI is an attribute. */
  function IFrameSlots(f: IFramePlaylist): seq<Slot>
  {
    var info := f.iframeStreamInfo;
    [ NatSlot("PROGRAM-ID", info.programId),
      Slot("BANDWIDTH", Some(Bare(NatToString(info.bandwidth)))),
      BareSlot("RESOLUTION", info.resolution),
      QuotedSlot("CODECS", info.codecs),
      Slot("URI", Some(Quoted(f.uri))) ]
  }

  function IFrameAttrs(f: IFramePlaylist): seq<Attr>
  {
    Present(IFrameSlots(f))
  }

  /** The line opens with its tag, which is how `loads` tells the lines apart. */
  function IFrameLine(f: IFramePlaylist): (r: string)
    ensures StartsWith(r, IFrameStreamInfTag)
  {
    StartsWithConcat(IFrameStreamInfTag, Encode(IFrameAttrs(f)));
    IFrameStreamInfTag + Encode(IFrameAttrs(f))
  }

  function MediaLines(ms: seq<Media>): seq<string>
  {
    if |ms| == 0 then [] else [MediaLine(ms[0])] + MediaLines(ms[1..])
  }

  /** Each variant stream gives two lines: its tag, then its URI as given. */
  function PlaylistLines(ps: seq<Playlist>): seq<string>
  {
    if |ps| == 0 then [] else [StreamInfLine(ps[0]), ps[0].uri] + PlaylistLines(ps[1..])
  }

  function IFrameLines(fs: seq<IFramePlaylist>): seq<string>
  {
    if |fs| == 0 then [] else [IFrameLine(fs[0])] + IFrameLines(fs[1..])
  }

  function DocLines(doc: Manifest): seq<string>
  {
    [Header] + MediaLines(doc.media) + PlaylistLines(doc.playlists) + IFrameLines(doc.iframePlaylists)
  }

  /** The text of a master playlist: it opens with the `#EXTM3U` line. */
  function Dumps(doc: Manifest): (r: string)
    ensures StartsWith(r, Header + "\n")
  {
    var lines := DocLines(doc);
    assert lines[0] == Header;
    StartsWithConcat(Header + "\n", Render(lines[1..]));
    Render(lines)
  }

  // ---- where each entry's lines stand ----

  /** `f` applied to each element, in order. */
  function Each<T>(f: T -> string, xs: seq<T>): seq<string>
  {
    if |xs| == 0 then [] else [f(xs[0])] + Each(f, xs[1..])
  }

  /** `f` and then `g` applied to each element, in order: two lines per element. */
  function EachTwice<T>(f: T -> string, g: T -> string, xs: seq<T>): seq<string>
  {
    if |xs| == 0 then [] else [f(xs[0]), g(xs[0])] + EachTwice(f, g, xs[1..])
  }

  lemma {:induction false} EachLength<T>(f: T -> string, xs: seq<T>)
    ensures |Each(f, xs)| == |xs|
    decreases |xs|
  {
    if |xs| > 0 {
      EachLength(f, xs[1..]);
    }
  }

  lemma {:induction false} EachIndex<T>(f: T -> string, xs: seq<T>, i: nat)
    requires i < |xs|
    ensures |Each(f, xs)| == |xs| && Each(f, xs)[i] == f(xs[i])
    decreases i
  {
    EachLength(f, xs);
    if i > 0 {
      EachIndex(f, xs[1..], i - 1);
    }
  }

  lemma {:induction false} EachTwiceLength<T>(f: T -> string, g: T -> string, xs: seq<T>)
    ensures |EachTwice(f, g, xs)| == 2 * |xs|
    decreases |xs|
  {
    if |xs| > 0 {
      EachTwiceLength(f, g, xs[1..]);
    }
  }

  lemma {:induction false} EachTwiceIndex<T>(f: T -> string, g: T -> string, xs: seq<T>, j: nat)
    requires j < |xs|
    ensures |EachTwice(f, g, xs)| == 2 * |xs|
    ensures EachTwice(f, g, xs)[2 * j] == f(xs[j]) && EachTwice(f, g, xs)[2 * j + 1] == g(xs[j])
    decreases j
  {
    EachTwiceLength(f, g, xs);
    if j > 0 {
      EachTwiceIndex(f, g, xs[1..], j - 1);
      assert EachTwice(f, g, xs)[2 * j] == EachTwice(f, g, xs[1..])[2 * (j - 1)];
      assert EachTwice(f, g, xs)[2 * j + 1] == EachTwice(f, g, xs[1..])[2 * (j - 1) + 1];
    }
  }

  function Uri(p: Playlist): string { p.uri }

  lemma {:induction false} MediaLinesEach(ms: seq<Media>)
    ensures MediaLines(ms) == Each(MediaLine, ms)
    decreases |ms|
  {
    if |ms| > 0 {
      MediaLinesEach(ms[1..]);
    }
  }

  lemma {:induction false} PlaylistLinesEach(ps: seq<Playlist>)
    ensures PlaylistLines(ps) == EachTwice(StreamInfLine, Uri, ps)
    decreases |ps|
  {
    if |ps| > 0 {
      PlaylistLinesEach(ps[1..]);
    }
  }

  lemma {:induction false} IFrameLinesEach(fs: seq<IFramePlaylist>)
    ensures IFrameLines(fs) == Each(IFrameLine, fs)
    decreases |fs|
  {
    if |fs| > 0 {
      IFrameLinesEach(fs[1..]);
    }
  }

  lemma {:induction false} MediaLinesLength(ms: seq<Media>)
    ensures |MediaLines(ms)| == |ms|
    decreases |ms|
  {
    if |ms| > 0 {
      MediaLinesLength(ms[1..]);
    }
  }

  lemma {:induction false} PlaylistLinesLength(ps: seq<Playlist>)
    ensures |PlaylistLines(ps)| == 2 * |ps|
    decreases |ps|
  {
    if |ps| > 0 {
      PlaylistLinesLength(ps[1..]);
    }
  }

  lemma {:induction false} IFrameLinesLength(fs: seq<IFramePlaylist>)
    ensures |IFrameLines(fs)| == |fs|
    decreases |fs|
  {
    if |fs| > 0 {
      IFrameLinesLength(fs[1..]);
    }
  }

  /** A master playlist has the header, one line per rendition, two per variant stream and one per I-frame stream. */
  lemma DocLinesLength(doc: Manifest)
    ensures |DocLines(doc)| == 1 + |doc.media| + 2 * |doc.playlists| + |doc.iframePlaylists|
    ensures DocLines(doc)[0] == Header
  {
    MediaLinesLength(doc.media);
    PlaylistLinesLength(doc.playlists);
    IFrameLinesLength(doc.iframePlaylists);
  }

  lemma MediaLineAt(ms: seq<Media>, i: nat)
    requires i < |ms|
    ensures |MediaLines(ms)| == |ms| && MediaLines(ms)[i] == MediaLine(ms[i])
  {
    MediaLinesEach(ms);
    EachIndex(MediaLine, ms, i);
  }

  lemma PlaylistLineAt(ps: seq<Playlist>, j: nat)
    requires j < |ps|
    ensures |PlaylistLines(ps)| == 2 * |ps|
    ensures PlaylistLines(ps)[2 * j] == StreamInfLine(ps[j]) && PlaylistLines(ps)[2 * j + 1] == ps[j].uri
  {
    PlaylistLinesEach(ps);
    EachTwiceIndex(StreamInfLine, Uri, ps, j);
  }

  lemma IFrameLineAt(fs: seq<IFramePlaylist>, i: nat)
    requires i < |fs|
    ensures |IFrameLines(fs)| == |fs| && IFrameLines(fs)[i] == IFrameLine(fs[i])
  {
    IFrameLinesEach(fs);
    EachIndex(IFrameLine, fs, i);
  }

  /** After the header come the EXT-X-MEDIA lines, in the order of the collection: line 1 + i is rendition i's. */
  lemma DocMediaLine(doc: Manifest, i: nat)
    requires i < |doc.media|
    ensures |DocLines(doc)| == 1 + |doc.media| + 2 * |doc.playlists| + |doc.iframePlaylists|
    ensures DocLines(doc)[1 + i] == MediaLine(doc.media[i])
  {
    DocMediaIndex(doc, i);
    MediaLineAt(doc.media, i);
  }

  /** Then each variant stream: its EXT-X-STREAM-INF line, then its URI as given. */
  lemma DocPlaylistLine(doc: Manifest, j: nat)
    requires j < |doc.playlists|
    ensures |DocLines(doc)| == 1 + |doc.media| + 2 * |doc.playlists| + |doc.iframePlaylists|
    ensures DocLines(doc)[1 + |doc.media| + 2 * j] == StreamInfLine(doc.playlists[j])
    ensures DocLines(doc)[1 + |doc.media| + 2 * j + 1] == doc.playlists[j].uri
  {
    DocPlaylistIndex(doc, j);
    PlaylistLineAt(doc.playlists, j);
  }

  /** Last, the EXT-X-I-FRAME-STREAM-INF lines, in the order of the collection. */
  lemma DocIFrameLine(doc: Manifest, i: nat)
    requires i < |doc.iframePlaylists|
    ensures |DocLines(doc)| == 1 + |doc.media| + 2 * |doc.playlists| + |doc.iframePlaylists|
    ensures DocLines(doc)[1 + |doc.media| + 2 * |doc.playlists| + i] == IFrameLine(doc.iframePlaylists[i])
  {
    DocIFrameIndex(doc, i);
    IFrameLineAt(doc.iframePlaylists, i);
  }

  // Where each section's lines stand among the document's, without looking inside a line.

  lemma DocMediaIndex(doc: Manifest, i: nat)
    requires i < |doc.media|
    ensures |DocLines(doc)| == 1 + |doc.media| + 2 * |doc.playlists| + |doc.iframePlaylists|
    ensures |MediaLines(doc.media)| == |doc.media| && DocLines(doc)[1 + i] == MediaLines(doc.media)[i]
  {
    DocLinesLength(doc);
    MediaLinesLength(doc.media);
    LayoutMedia(MediaLines(doc.media), PlaylistLines(doc.playlists), IFrameLines(doc.iframePlaylists), i);
  }

  lemma DocPlaylistIndex(doc: Manifest, j: nat)
    requires j < |doc.playlists|
    ensures |DocLines(doc)| == 1 + |doc.media| + 2 * |doc.playlists| + |doc.iframePlaylists|
    ensures |PlaylistLines(doc.playlists)| == 2 * |doc.playlists|
    ensures DocLines(doc)[1 + |doc.media| + 2 * j] == PlaylistLines(doc.playlists)[2 * j]
    ensures DocLines(doc)[1 + |doc.media| + 2 * j + 1] == PlaylistLines(doc.playlists)[2 * j + 1]
  {
    DocLinesLength(doc);
    MediaLinesLength(doc.media);
    PlaylistLinesLength(doc.playlists);
    var m, p, f := MediaLines(doc.media), PlaylistLines(doc.playlists), IFrameLines(doc.iframePlaylists);
    LayoutPlaylist(m, p, f, 2 * j);
    LayoutPlaylist(m, p, f, 2 * j + 1);
  }

  lemma DocIFrameIndex(doc: Manifest, i: nat)
    requires i < |doc.iframePlaylists|
    ensures |DocLines(doc)| == 1 + |doc.media| + 2 * |doc.playlists| + |doc.iframePlaylists|
    ensures |IFrameLines(doc.iframePlaylists)| == |doc.iframePlaylists|
    ensures DocLines(doc)[1 + |doc.media| + 2 * |doc.playlists| + i] == IFrameLines(doc.iframePlaylists)[i]
  {
    DocLinesLength(doc);
    MediaLinesLength(doc.media);
    PlaylistLinesLength(doc.playlists);
    IFrameLinesLength(doc.iframePlaylists);
    LayoutIFrame(MediaLines(doc.media), PlaylistLines(doc.playlists), IFrameLines(doc.iframePlaylists), i);
  }

  /** Where the pieces `m`, `p` and `f` of `[Header] + m + p + f` stand. */
  lemma LayoutMedia(m: seq<string>, p: seq<string>, f: seq<string>, i: nat)
    requires i < |m|
    ensures ([Header] + m + p + f)[1 + i] == m[i]
  {
  }

  lemma LayoutPlaylist(m: seq<string>, p: seq<string>, f: seq<string>, k: nat)
    requires k < |p|
    ensures ([Header] + m + p + f)[1 + |m| + k] == p[k]
  {
  }

  lemma LayoutIFrame(m: seq<string>, p: seq<string>, f: seq<string>, i: nat)
    requires i < |f|
    ensures ([Header] + m + p + f)[1 + |m| + |p| + i] == f[i]
  {
  }
}
