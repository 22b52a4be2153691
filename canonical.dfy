/**
 * What survives a trip through the text. Dumping drops empty optional
 * strings, the group references a variant's renditions do not back, base
 * URIs and segments; loading fills a variant's renditions from the media the
 * document declares. The canonical form of a manifest is what loading its
 * text gives back, and `Serializable` is when its text reads back at all.
 */
module Canonical {
  import opened Wrappers
  import opened Media
  import opened Entities
  import MediaList
  import opened Serializer
  import opened Parser

  /** Text that can sit between double quotes on one line. */
  predicate QuotedText(s: string)
  {
    '"' !in s && '\n' !in s
  }

  predicate OptQuoted(o: Option<string>)
  {
    o.Some? ==> QuotedText(o.value)
  }

  /** Text that can stand unquoted as one attribute value on one line. */
  predicate OptBare(o: Option<string>)
  {
    o.Some? ==> ',' !in o.value && '"' !in o.value && '\n' !in o.value
  }

  /** A URI line: not empty, not read as a tag or comment, on one line. */
  predicate UriLine(s: string)
  {
    |s| > 0 && s[0] != '#' && '\n' !in s
  }

  predicate MediaWritable(m: Media)
  {
    && QuotedText(m.groupId) && QuotedText(m.name)
    && OptQuoted(m.uri) && OptQuoted(m.language) && OptQuoted(m.assocLanguage)
    && OptQuoted(m.instreamId) && OptQuoted(m.characteristics)
  }

  /** The strings of a variant stream fit its two lines. */
  predicate PlaylistWritable(p: Playlist)
  {
    && UriLine(p.uri)
    && OptBare(p.streamInfo.resolution) && OptQuoted(p.streamInfo.codecs)
    && forall t :: OptQuoted(EmittedRef(p, t))
  }

  /** Every group a variant writes is declared by some rendition of the document. */
  predicate RefsDeclared(p: Playlist, all: seq<Media>)
  {
    forall t :: EmittedRef(p, t).Some? ==> HasRendition(all, t, EmittedRef(p, t).value)
  }

  predicate IFrameWritable(f: IFramePlaylist)
  {
    QuotedText(f.uri) && OptBare(f.iframeStreamInfo.resolution) && OptQuoted(f.iframeStreamInfo.codecs)
  }

  /** A manifest whose text reads back: unique rendition keys, and every written string fits where it goes. */
  predicate Serializable(doc: Manifest)
  {
    && MediaList.UniqueKeys(doc.media)
    && (forall i :: 0 <= i < |doc.media| ==> MediaWritable(doc.media[i]))
    && (forall i :: 0 <= i < |doc.playlists| ==> PlaylistWritable(doc.playlists[i]))
    && (forall i :: 0 <= i < |doc.playlists| ==> RefsDeclared(doc.playlists[i], doc.media))
    && (forall i :: 0 <= i < |doc.iframePlaylists| ==> IFrameWritable(doc.iframePlaylists[i]))
  }

  /** A rendition as it reads back: empty optional strings become absent. */
  function CanonMedia(m: Media): (r: Media)
    ensures Key(r) == Key(m)
  {
    m.(uri := NonEmpty(m.uri), language := NonEmpty(m.language), assocLanguage := NonEmpty(m.assocLanguage),
       characteristics := NonEmpty(m.characteristics), instreamId := NonEmpty(m.instreamId))
  }

  /** Stream info as it reads back: only the group references that were written remain. */
  function CanonInfo(p: Playlist): StreamInfo
  {
    p.streamInfo.(resolution := NonEmpty(p.streamInfo.resolution), codecs := NonEmpty(p.streamInfo.codecs),
                  audio := EmittedRef(p, Audio), video := EmittedRef(p, Video),
                  subtitles := EmittedRef(p, Subtitles), closedCaptions := EmittedRef(p, ClosedCaptions))
  }

  /** A variant as it reads back: its renditions are those of `all` its stream info names. */
  function CanonPlaylist(p: Playlist, all: seq<Media>): Playlist
  {
    var info := CanonInfo(p);
    Playlist(p.uri, info, RenditionsFor(all, info), None)
  }

  function CanonIFrame(f: IFramePlaylist): IFramePlaylist
  {
    var info := f.iframeStreamInfo;
    IFramePlaylist(f.uri, info.(resolution := NonEmpty(info.resolution), codecs := NonEmpty(info.codecs)), None)
  }

  function CanonMedias(ms: seq<Media>): seq<Media>
  {
    if |ms| == 0 then [] else [CanonMedia(ms[0])] + CanonMedias(ms[1..])
  }

  function CanonPlaylists(ps: seq<Playlist>, all: seq<Media>): seq<Playlist>
  {
    if |ps| == 0 then [] else [CanonPlaylist(ps[0], all)] + CanonPlaylists(ps[1..], all)
  }

  function CanonIFrames(fs: seq<IFramePlaylist>): seq<IFramePlaylist>
  {
    if |fs| == 0 then [] else [CanonIFrame(fs[0])] + CanonIFrames(fs[1..])
  }

  /** The manifest that loading the text of `doc` gives. */
  function Canon(doc: Manifest): Manifest
  {
    var all := CanonMedias(doc.media);
    Manifest(all, CanonPlaylists(doc.playlists, all), CanonIFrames(doc.iframePlaylists), [])
  }

  // ---- the canonical form writes the same text ----

  lemma QuotedSlotCanon(n: string, o: Option<string>)
    ensures QuotedSlot(n, NonEmpty(o)) == QuotedSlot(n, o)
  {
  }

  lemma BareSlotCanon(n: string, o: Option<string>)
    ensures BareSlot(n, NonEmpty(o)) == BareSlot(n, o)
  {
  }

  /** A rendition and its canonical form are written as the same line. */
  lemma MediaLineCanon(m: Media)
    ensures MediaLine(CanonMedia(m)) == MediaLine(m)
  {
    QuotedSlotCanon("URI", m.uri);
    QuotedSlotCanon("LANGUAGE", m.language);
    QuotedSlotCanon("ASSOC-LANGUAGE", m.assocLanguage);
    QuotedSlotCanon("INSTREAM-ID", m.instreamId);
    QuotedSlotCanon("CHARACTERISTICS", m.characteristics);
    assert MediaSlots(CanonMedia(m)) == MediaSlots(m);
  }

  lemma {:induction false} MediaLinesCanon(ms: seq<Media>)
    ensures MediaLines(CanonMedias(ms)) == MediaLines(ms)
    decreases |ms|
  {
    if |ms| > 0 {
      MediaLineCanon(ms[0]);
      MediaLinesCanon(ms[1..]);
    }
  }

  /** Canonical renditions stand where the renditions stood, one for one. */
  lemma {:induction false} CanonMediasAt(ms: seq<Media>)
    ensures |CanonMedias(ms)| == |ms|
    ensures forall i :: 0 <= i < |ms| ==> CanonMedias(ms)[i] == CanonMedia(ms[i])
    decreases |ms|
  {
    if |ms| > 0 {
      CanonMediasAt(ms[1..]);
      forall i | 1 <= i < |ms| ensures CanonMedias(ms)[i] == CanonMedia(ms[i]) {
        assert CanonMedias(ms)[i] == CanonMedias(ms[1..])[i - 1];
        assert ms[1..][i - 1] == ms[i];
      }
    }
  }

  /** Making renditions canonical keeps the groups they declare. */
  lemma CanonMediasGroups(ms: seq<Media>, t: MediaType, g: string)
    ensures HasRendition(CanonMedias(ms), t, g) <==> HasRendition(ms, t, g)
  {
    if HasRendition(ms, t, g) {
      CanonMediasKeeps(ms, t, g);
    }
    if HasRendition(CanonMedias(ms), t, g) {
      CanonMediasBacks(ms, t, g);
    }
  }

  lemma CanonMediasKeeps(ms: seq<Media>, t: MediaType, g: string)
    requires HasRendition(ms, t, g)
    ensures HasRendition(CanonMedias(ms), t, g)
  {
    CanonMediasAt(ms);
    var all := CanonMedias(ms);
    var m :| m in ms && m.mediaType == t && m.groupId == g;
    var i :| 0 <= i < |ms| && ms[i] == m;
    assert all[i] in all;
  }

  lemma CanonMediasBacks(ms: seq<Media>, t: MediaType, g: string)
    requires HasRendition(CanonMedias(ms), t, g)
    ensures HasRendition(ms, t, g)
  {
    CanonMediasAt(ms);
    var all := CanonMedias(ms);
    var m :| m in all && m.mediaType == t && m.groupId == g;
    var i :| 0 <= i < |all| && all[i] == m;
    assert ms[i] in ms;
  }

  /**
   * A variant read back writes the same group references: the ones it wrote
   * are backed by the renditions the document declares, so loading gives it
   * renditions of those groups again.
   */
  lemma EmittedRefCanon(p: Playlist, ms: seq<Media>, t: MediaType)
    requires RefsDeclared(p, ms)
    ensures EmittedRef(CanonPlaylist(p, CanonMedias(ms)), t) == EmittedRef(p, t)
  {
    var all := CanonMedias(ms);
    var info := CanonInfo(p);
    var e := EmittedRef(p, t);
    assert GroupRef(info, t) == e by {
      match t
      case Audio =>
      case Video =>
      case Subtitles =>
      case ClosedCaptions =>
    }
    if e.Some? {
      CanonMediasGroups(ms, t, e.value);
      var m :| m in all && m.mediaType == t && m.groupId == e.value;
      assert m in RenditionsFor(all, info);
    }
  }

  /** A variant and its canonical form are written as the same two lines. */
  lemma StreamInfLineCanon(p: Playlist, ms: seq<Media>)
    requires RefsDeclared(p, ms)
    ensures StreamInfLine(CanonPlaylist(p, CanonMedias(ms))) == StreamInfLine(p)
    ensures CanonPlaylist(p, CanonMedias(ms)).uri == p.uri
  {
    var cp := CanonPlaylist(p, CanonMedias(ms));
    EmittedRefCanon(p, ms, Audio);
    EmittedRefCanon(p, ms, Video);
    EmittedRefCanon(p, ms, Subtitles);
    EmittedRefCanon(p, ms, ClosedCaptions);
    BareSlotCanon("RESOLUTION", p.streamInfo.resolution);
    QuotedSlotCanon("CODECS", p.streamInfo.codecs);
    assert StreamInfSlots(cp) == StreamInfSlots(p);
  }

  lemma {:induction false} PlaylistLinesCanon(ps: seq<Playlist>, ms: seq<Media>)
    requires forall i :: 0 <= i < |ps| ==> RefsDeclared(ps[i], ms)
    ensures PlaylistLines(CanonPlaylists(ps, CanonMedias(ms))) == PlaylistLines(ps)
    decreases |ps|
  {
    if |ps| > 0 {
      StreamInfLineCanon(ps[0], ms);
      assert forall i :: 0 <= i < |ps[1..]| ==> ps[1..][i] == ps[i + 1];
      PlaylistLinesCanon(ps[1..], ms);
    }
  }

  lemma IFrameLineCanon(f: IFramePlaylist)
    ensures IFrameLine(CanonIFrame(f)) == IFrameLine(f)
  {
    BareSlotCanon("RESOLUTION", f.iframeStreamInfo.resolution);
    QuotedSlotCanon("CODECS", f.iframeStreamInfo.codecs);
    assert IFrameSlots(CanonIFrame(f)) == IFrameSlots(f);
  }

  lemma {:induction false} IFrameLinesCanon(fs: seq<IFramePlaylist>)
    ensures IFrameLines(CanonIFrames(fs)) == IFrameLines(fs)
    decreases |fs|
  {
    if |fs| > 0 {
      IFrameLineCanon(fs[0]);
      IFrameLinesCanon(fs[1..]);
    }
  }

  /** Dumping sees no difference between a manifest and its canonical form. */
  lemma DumpsCanon(doc: Manifest)
    requires forall i :: 0 <= i < |doc.playlists| ==> RefsDeclared(doc.playlists[i], doc.media)
    ensures Dumps(Canon(doc)) == Dumps(doc)
  {
    MediaLinesCanon(doc.media);
    PlaylistLinesCanon(doc.playlists, doc.media);
    IFrameLinesCanon(doc.iframePlaylists);
    assert DocLines(Canon(doc)) == DocLines(doc);
  }
}
