/**
 * `loads` inverts `dumps` up to the canonical form, and `dumps` does not see
 * the difference: for every serializable manifest the text of the loaded
 * manifest is the text it was loaded from.
 */
module RoundTrip {
  import opened Wrappers
  import opened Text
  import opened Media
  import opened Entities
  import MediaList
  import opened Serializer
  import opened Parser
  import opened Canonical
  import opened LineReads

  // ---- the state after each section of the text ----

  function AfterMedia(st: ParserState, ms: seq<Media>): ParserState
    decreases |ms|
  {
    if |ms| == 0 then st
    else AfterMedia(st.(doc := st.doc.(media := st.doc.media + [CanonMedia(ms[0])])), ms[1..])
  }

  function AfterPlaylists(st: ParserState, ps: seq<Playlist>): ParserState
    decreases |ps|
  {
    if |ps| == 0 then st
    else AfterPlaylists(st.(doc := st.doc.(playlists := st.doc.playlists + [CanonPlaylist(ps[0], st.doc.media)])), ps[1..])
  }

  function AfterIFrames(st: ParserState, fs: seq<IFramePlaylist>): ParserState
    decreases |fs|
  {
    if |fs| == 0 then st
    else AfterIFrames(st.(doc := st.doc.(iframePlaylists := st.doc.iframePlaylists + [CanonIFrame(fs[0])])), fs[1..])
  }

  lemma {:induction false} AfterMediaIs(st: ParserState, ms: seq<Media>)
    ensures AfterMedia(st, ms) == st.(doc := st.doc.(media := st.doc.media + CanonMedias(ms)))
    decreases |ms|
  {
    if |ms| == 0 {
      assert st.doc.media + CanonMedias(ms) == st.doc.media;
    } else {
      var next := st.(doc := st.doc.(media := st.doc.media + [CanonMedia(ms[0])]));
      AfterMediaIs(next, ms[1..]);
      AppendCons(st.doc.media, CanonMedia(ms[0]), CanonMedias(ms[1..]));
    }
  }

  lemma {:induction false} AfterPlaylistsIs(st: ParserState, ps: seq<Playlist>)
    ensures AfterPlaylists(st, ps) == st.(doc := st.doc.(playlists := st.doc.playlists + CanonPlaylists(ps, st.doc.media)))
    decreases |ps|
  {
    if |ps| == 0 {
      assert st.doc.playlists + CanonPlaylists(ps, st.doc.media) == st.doc.playlists;
    } else {
      var next := st.(doc := st.doc.(playlists := st.doc.playlists + [CanonPlaylist(ps[0], st.doc.media)]));
      AfterPlaylistsIs(next, ps[1..]);
      AppendCons(st.doc.playlists, CanonPlaylist(ps[0], st.doc.media), CanonPlaylists(ps[1..], st.doc.media));
    }
  }

  lemma {:induction false} AfterIFramesIs(st: ParserState, fs: seq<IFramePlaylist>)
    ensures AfterIFrames(st, fs) == st.(doc := st.doc.(iframePlaylists := st.doc.iframePlaylists + CanonIFrames(fs)))
    decreases |fs|
  {
    if |fs| == 0 {
      assert st.doc.iframePlaylists + CanonIFrames(fs) == st.doc.iframePlaylists;
    } else {
      var next := st.(doc := st.doc.(iframePlaylists := st.doc.iframePlaylists + [CanonIFrame(fs[0])]));
      AfterIFramesIs(next, fs[1..]);
      AppendCons(st.doc.iframePlaylists, CanonIFrame(fs[0]), CanonIFrames(fs[1..]));
    }
  }

  lemma AppendCons<T>(a: seq<T>, x: T, rest: seq<T>)
    ensures (a + [x]) + rest == a + ([x] + rest)
  {
  }

  // ---- loading the text, line by line ----

  /** Parsing a line that steps to `next` continues from `next`. */
  lemma ParseLinesCons(st: ParserState, line: string, rest: seq<string>, next: ParserState)
    requires Step(st, line) == Success(next)
    ensures ParseLines(st, [line] + rest) == ParseLines(next, rest)
  {
    assert ([line] + rest)[0] == line;
    assert ([line] + rest)[1..] == rest;
  }

  lemma MediaCons(st: ParserState, ms: seq<Media>)
    requires |ms| > 0 && MediaWritable(ms[0]) && MediaList.Lookup(st.doc.media, Key(ms[0])).None?
    ensures ParseLines(st, MediaLines(ms)) ==
              ParseLines(st.(doc := st.doc.(media := st.doc.media + [CanonMedia(ms[0])])), MediaLines(ms[1..]))
  {
    var next := st.(doc := st.doc.(media := st.doc.media + [CanonMedia(ms[0])]));
    StepMedia(st, ms[0]);
    assert MediaList.Add(st.doc.media, CanonMedia(ms[0]), false) == st.doc.media + [CanonMedia(ms[0])];
    ParseLinesCons(st, MediaLine(ms[0]), MediaLines(ms[1..]), next);
  }

  lemma {:induction false} PlaylistCons(st: ParserState, ps: seq<Playlist>)
    requires |ps| > 0 && PlaylistWritable(ps[0]) && st.pending.None?
    ensures ParseLines(st, PlaylistLines(ps)) ==
              ParseLines(st.(doc := st.doc.(playlists := st.doc.playlists + [CanonPlaylist(ps[0], st.doc.media)])), PlaylistLines(ps[1..]))
  {
    var p := ps[0];
    var waiting := st.(pending := Some(CanonInfo(p)));
    var next := st.(doc := st.doc.(playlists := st.doc.playlists + [CanonPlaylist(p, st.doc.media)]));
    StepStreamInf(st, p);
    StepUri(waiting, p.uri);
    assert UriStep(waiting, p.uri) == next;
    ParseLinesCons(waiting, p.uri, PlaylistLines(ps[1..]), next);
    assert PlaylistLines(ps) == [StreamInfLine(p)] + ([p.uri] + PlaylistLines(ps[1..]));
    ParseLinesCons(st, StreamInfLine(p), [p.uri] + PlaylistLines(ps[1..]), waiting);
  }

  lemma IFrameCons(st: ParserState, fs: seq<IFramePlaylist>)
    requires |fs| > 0 && IFrameWritable(fs[0])
    ensures ParseLines(st, IFrameLines(fs)) ==
              ParseLines(st.(doc := st.doc.(iframePlaylists := st.doc.iframePlaylists + [CanonIFrame(fs[0])])), IFrameLines(fs[1..]))
  {
    var next := st.(doc := st.doc.(iframePlaylists := st.doc.iframePlaylists + [CanonIFrame(fs[0])]));
    StepIFrame(st, fs[0]);
    ParseLinesCons(st, IFrameLine(fs[0]), IFrameLines(fs[1..]), next);
  }

  // ---- loading the text, section by section ----

  /** After the first rendition is added, the keys of the others are still new. */
  lemma FreshTail(media: seq<Media>, ms: seq<Media>)
    requires |ms| > 0 && MediaList.UniqueKeys(ms)
    requires forall i :: 0 <= i < |ms| ==> MediaList.Lookup(media, Key(ms[i])).None?
    ensures forall i :: 0 <= i < |ms[1..]| ==> MediaList.Lookup(media + [CanonMedia(ms[0])], Key(ms[1..][i])).None?
  {
    forall i | 0 <= i < |ms[1..]| ensures MediaList.Lookup(media + [CanonMedia(ms[0])], Key(ms[1..][i])).None? {
      assert ms[1..][i] == ms[i + 1];
      assert Key(ms[0]) != Key(ms[i + 1]);
      assert MediaList.Lookup(media, Key(ms[i + 1])).None?;
    }
  }

  /** The EXT-X-MEDIA lines add the canonical renditions, in order, when their keys are new. */
  lemma {:induction false} MediaSection(st: ParserState, ms: seq<Media>)
    requires forall i :: 0 <= i < |ms| ==> MediaWritable(ms[i])
    requires MediaList.UniqueKeys(ms)
    requires forall i :: 0 <= i < |ms| ==> MediaList.Lookup(st.doc.media, Key(ms[i])).None?
    ensures ParseLines(st, MediaLines(ms)) == Success(AfterMedia(st, ms))
    decreases |ms|
  {
    if |ms| > 0 {
      var next := st.(doc := st.doc.(media := st.doc.media + [CanonMedia(ms[0])]));
      MediaCons(st, ms);
      FreshTail(st.doc.media, ms);
      MediaList.UniqueTail(ms);
      assert forall i :: 0 <= i < |ms[1..]| ==> ms[1..][i] == ms[i + 1];
      MediaSection(next, ms[1..]);
    }
  }

  /** Each pair of variant lines adds the canonical variant, its renditions taken from the media read so far. */
  lemma {:induction false} PlaylistSection(st: ParserState, ps: seq<Playlist>)
    requires st.pending.None?
    requires forall i :: 0 <= i < |ps| ==> PlaylistWritable(ps[i])
    ensures ParseLines(st, PlaylistLines(ps)) == Success(AfterPlaylists(st, ps))
    decreases |ps|
  {
    if |ps| > 0 {
      var next := st.(doc := st.doc.(playlists := st.doc.playlists + [CanonPlaylist(ps[0], st.doc.media)]));
      PlaylistCons(st, ps);
      assert forall i :: 0 <= i < |ps[1..]| ==> ps[1..][i] == ps[i + 1];
      PlaylistSection(next, ps[1..]);
    }
  }

  /** The I-frame lines add the canonical I-frame streams, in order. */
  lemma {:induction false} IFrameSection(st: ParserState, fs: seq<IFramePlaylist>)
    requires forall i :: 0 <= i < |fs| ==> IFrameWritable(fs[i])
    ensures ParseLines(st, IFrameLines(fs)) == Success(AfterIFrames(st, fs))
    decreases |fs|
  {
    if |fs| > 0 {
      var next := st.(doc := st.doc.(iframePlaylists := st.doc.iframePlaylists + [CanonIFrame(fs[0])]));
      IFrameCons(st, fs);
      assert forall i :: 0 <= i < |fs[1..]| ==> fs[1..][i] == fs[i + 1];
      IFrameSection(next, fs[1..]);
    }
  }

  // ---- the text splits back into the lines written ----

  predicate NoBreaks(lines: seq<string>)
  {
    forall k :: 0 <= k < |lines| ==> '\n' !in lines[k]
  }

  lemma NoBreaksAppend(a: seq<string>, b: seq<string>)
    requires NoBreaks(a) && NoBreaks(b)
    ensures NoBreaks(a + b)
  {
    forall k | 0 <= k < |a + b| ensures '\n' !in (a + b)[k] {
      if k < |a| {
        assert (a + b)[k] == a[k];
      } else {
        assert (a + b)[k] == b[k - |a|];
      }
    }
  }

  lemma {:induction false} MediaLinesSingle(ms: seq<Media>)
    requires forall i :: 0 <= i < |ms| ==> MediaWritable(ms[i])
    ensures NoBreaks(MediaLines(ms))
    decreases |ms|
  {
    if |ms| > 0 {
      MediaLineShape(ms[0]);
      assert forall i :: 0 <= i < |ms[1..]| ==> ms[1..][i] == ms[i + 1];
      MediaLinesSingle(ms[1..]);
      NoBreaksAppend([MediaLine(ms[0])], MediaLines(ms[1..]));
    }
  }

  lemma {:induction false} PlaylistLinesSingle(ps: seq<Playlist>)
    requires forall i :: 0 <= i < |ps| ==> PlaylistWritable(ps[i])
    ensures NoBreaks(PlaylistLines(ps))
    decreases |ps|
  {
    if |ps| > 0 {
      StreamInfLineShape(ps[0]);
      assert forall i :: 0 <= i < |ps[1..]| ==> ps[1..][i] == ps[i + 1];
      PlaylistLinesSingle(ps[1..]);
      NoBreaksAppend([StreamInfLine(ps[0]), ps[0].uri], PlaylistLines(ps[1..]));
    }
  }

  lemma {:induction false} IFrameLinesSingle(fs: seq<IFramePlaylist>)
    requires forall i :: 0 <= i < |fs| ==> IFrameWritable(fs[i])
    ensures NoBreaks(IFrameLines(fs))
    decreases |fs|
  {
    if |fs| > 0 {
      IFrameLineShape(fs[0]);
      assert forall i :: 0 <= i < |fs[1..]| ==> fs[1..][i] == fs[i + 1];
      IFrameLinesSingle(fs[1..]);
      NoBreaksAppend([IFrameLine(fs[0])], IFrameLines(fs[1..]));
    }
  }

  /** The lines of a master playlist's text are the lines written for it. */
  lemma DumpsLines(doc: Manifest)
    requires Serializable(doc)
    ensures Lines(Dumps(doc)) == DocLines(doc)
  {
    MediaLinesSingle(doc.media);
    PlaylistLinesSingle(doc.playlists);
    IFrameLinesSingle(doc.iframePlaylists);
    NoBreaksAppend([Header], MediaLines(doc.media));
    NoBreaksAppend([Header] + MediaLines(doc.media), PlaylistLines(doc.playlists));
    NoBreaksAppend([Header] + MediaLines(doc.media) + PlaylistLines(doc.playlists), IFrameLines(doc.iframePlaylists));
    LinesOfRender(DocLines(doc));
  }

  // ---- loading the text of a serializable manifest ----

  /** The media lines, read from the start, give the canonical renditions. */
  lemma BodyMedia(ms: seq<Media>)
    requires forall i :: 0 <= i < |ms| ==> MediaWritable(ms[i])
    requires MediaList.UniqueKeys(ms)
    ensures ParseLines(Initial, MediaLines(ms)) == Success(ParserState(Manifest(CanonMedias(ms), [], [], []), None))
  {
    MediaSection(Initial, ms);
    MediaFromInitial(ms);
  }

  lemma MediaFromInitial(ms: seq<Media>)
    ensures AfterMedia(Initial, ms) == ParserState(Manifest(CanonMedias(ms), [], [], []), None)
  {
    AfterMediaIs(Initial, ms);
    assert [] + CanonMedias(ms) == CanonMedias(ms);
  }

  lemma StreamsFromMedia(all: seq<Media>, ps: seq<Playlist>, fs: seq<IFramePlaylist>)
    ensures AfterPlaylists(ParserState(Manifest(all, [], [], []), None), ps)
              == ParserState(Manifest(all, CanonPlaylists(ps, all), [], []), None)
    ensures AfterIFrames(ParserState(Manifest(all, CanonPlaylists(ps, all), [], []), None), fs)
              == ParserState(Manifest(all, CanonPlaylists(ps, all), CanonIFrames(fs), []), None)
  {
    AfterPlaylistsIs(ParserState(Manifest(all, [], [], []), None), ps);
    assert [] + CanonPlaylists(ps, all) == CanonPlaylists(ps, all);
    AfterIFramesIs(ParserState(Manifest(all, CanonPlaylists(ps, all), [], []), None), fs);
    assert [] + CanonIFrames(fs) == CanonIFrames(fs);
  }

  /** The variant and I-frame lines, read after renditions `all`, give the canonical variants and I-frame streams. */
  lemma BodyStreams(all: seq<Media>, ps: seq<Playlist>, fs: seq<IFramePlaylist>)
    requires forall i :: 0 <= i < |ps| ==> PlaylistWritable(ps[i])
    requires forall i :: 0 <= i < |fs| ==> IFrameWritable(fs[i])
    ensures ParseLines(ParserState(Manifest(all, [], [], []), None), PlaylistLines(ps) + IFrameLines(fs))
              == Success(ParserState(Manifest(all, CanonPlaylists(ps, all), CanonIFrames(fs), []), None))
  {
    var st1 := ParserState(Manifest(all, [], [], []), None);
    var st2 := ParserState(Manifest(all, CanonPlaylists(ps, all), [], []), None);
    PlaylistSection(st1, ps);
    IFrameSection(st2, fs);
    StreamsFromMedia(all, ps, fs);
    ParseLinesAppend(st1, PlaylistLines(ps), IFrameLines(fs));
  }

  /** The lines after the header build the canonical manifest, with no variant left waiting. */
  lemma ParseBody(doc: Manifest)
    requires Serializable(doc)
    ensures ParseLines(Initial, MediaLines(doc.media) + (PlaylistLines(doc.playlists) + IFrameLines(doc.iframePlaylists)))
              == Success(ParserState(Canon(doc), None))
  {
    BodyMedia(doc.media);
    BodyStreams(CanonMedias(doc.media), doc.playlists, doc.iframePlaylists);
    ParseLinesAppend(Initial, MediaLines(doc.media), PlaylistLines(doc.playlists) + IFrameLines(doc.iframePlaylists));
  }

  lemma DocLinesSplit(doc: Manifest)
    ensures DocLines(doc) == [Header] + (MediaLines(doc.media) + (PlaylistLines(doc.playlists) + IFrameLines(doc.iframePlaylists)))
  {
    Reassociate([Header], MediaLines(doc.media), PlaylistLines(doc.playlists), IFrameLines(doc.iframePlaylists));
  }

  lemma Reassociate<T>(h: seq<T>, m: seq<T>, p: seq<T>, f: seq<T>)
    ensures h + m + p + f == h + (m + (p + f))
  {
  }

  /** How `loads` ends on a text whose lines are the header and then `body`. */
  lemma LoadsOf(text: string, body: seq<string>, st: ParserState)
    requires Lines(text) == [Header] + body && ParseLines(Initial, body) == Success(st) && st.pending.None?
    ensures Loads(text) == Success(st.doc)
  {
    assert ([Header] + body)[1..] == body;
  }

  /** Loading the text of a serializable manifest gives its canonical form. */
  lemma LoadsDumps(doc: Manifest)
    requires Serializable(doc)
    ensures Loads(Dumps(doc)) == Success(Canon(doc))
  {
    var body := MediaLines(doc.media) + (PlaylistLines(doc.playlists) + IFrameLines(doc.iframePlaylists));
    DumpsLines(doc);
    DocLinesSplit(doc);
    ParseBody(doc);
    LoadsOf(Dumps(doc), body, ParserState(Canon(doc), None));
  }

  // ---- the round trip ----

  /**
   * `loads(text).dumps() == text` for every text `dumps` writes: loading
   * succeeds, and dumping what was loaded writes the same text again.
   */
  lemma RoundTrip(doc: Manifest)
    requires Serializable(doc)
    ensures Loads(Dumps(doc)).Success?
    ensures Dumps(Loads(Dumps(doc)).value) == Dumps(doc)
  {
    LoadsDumps(doc);
    DumpsCanon(doc);
  }

  /** Loading a second time changes nothing: the loaded manifest is a fixed point. */
  lemma LoadsStable(doc: Manifest)
    requires Serializable(doc)
    ensures Loads(Dumps(Canon(doc))) == Loads(Dumps(doc))
  {
    DumpsCanon(doc);
  }

  /** A manifest already in canonical form reads back as exactly itself. */
  lemma CanonicalRoundTrip(doc: Manifest)
    requires Serializable(doc) && Canon(doc) == doc
    ensures Loads(Dumps(doc)) == Success(doc)
  {
    LoadsDumps(doc);
  }
}
