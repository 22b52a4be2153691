/**
 * The master playlists that the `dumps` tests of tests/test_variant_m3u8.py
 * write, entry by entry and line by line. For each rendition, variant stream
 * and I-frame stream there is its value; `...Slots`, the slots its tag fills;
 * `...Present`, which of them are written; `...Attrs`, the attribute list
 * itself, in order and each value quoted or bare; `...Texts`, the text of each
 * attribute; and `...Line`, the exact line, joined left to right with
 * `EncodeSnoc`. Then come each test's document, its lines, and the test's own
 * steps on the M3U8 object.
 */
module DumpsScenarios {
  import opened Wrappers
  import opened Text
  import opened AttributeList
  import opened Media
  import opened Entities
  import opened Serializer
  import opened Aggregate

  // ---- numerals, digit by digit ----

  /** The numerals of the first and third tests. */
  lemma BandwidthNumerals()
    ensures NatToString(1) == "1" && NatToString(1280000) == "1280000" && NatToString(3000000) == "3000000"
  {
    assert NatToString(1) == "1";
    assert NatToString(12) == "12";
    assert NatToString(128) == "128";
    assert NatToString(1280) == "1280";
    assert NatToString(12800) == "12800";
    assert NatToString(128000) == "128000";
    assert NatToString(3) == "3";
    assert NatToString(30) == "30";
    assert NatToString(300) == "300";
    assert NatToString(3000) == "3000";
    assert NatToString(30000) == "30000";
    assert NatToString(300000) == "300000";
  }

  lemma VideoNumerals()
    ensures NatToString(800000) == "800000" && NatToString(1200000) == "1200000"
  {
    assert NatToString(8) == "8";
    assert NatToString(80) == "80";
    assert NatToString(800) == "800";
    assert NatToString(8000) == "8000";
    assert NatToString(80000) == "80000";
    assert NatToString(1) == "1";
    assert NatToString(12) == "12";
    assert NatToString(120) == "120";
    assert NatToString(1200) == "1200";
    assert NatToString(12000) == "12000";
    assert NatToString(120000) == "120000";
  }

  lemma IFrameNumerals()
    ensures NatToString(151288) == "151288" && NatToString(193350) == "193350"
  {
    assert NatToString(1) == "1";
    assert NatToString(15) == "15";
    assert NatToString(151) == "151";
    assert NatToString(1512) == "1512";
    assert NatToString(15128) == "15128";
    assert NatToString(19) == "19";
    assert NatToString(193) == "193";
    assert NatToString(1933) == "1933";
    assert NatToString(19335) == "19335";
  }

  lemma AverageNumerals()
    ensures NatToString(1257891) == "1257891" && NatToString(2857123) == "2857123"
  {
    assert NatToString(1) == "1";
    assert NatToString(12) == "12";
    assert NatToString(125) == "125";
    assert NatToString(1257) == "1257";
    assert NatToString(12578) == "12578";
    assert NatToString(125789) == "125789";
    assert NatToString(2) == "2";
    assert NatToString(28) == "28";
    assert NatToString(285) == "285";
    assert NatToString(2857) == "2857";
    assert NatToString(28571) == "28571";
    assert NatToString(285712) == "285712";
  }

  /** Stream info with PROGRAM-ID 1 that names the subtitles group `subs`, as every variant stream of the tests does. */
  function Info(bandwidth: nat, average: Option<nat>, resolution: Option<string>, codecs: Option<string>): StreamInfo
  {
    StreamInfo(bandwidth, Some(1), average, resolution, codecs, None, None, Some("subs"), None)
  }

  // ---- EnglishSubtitles ----

  /** The English subtitles rendition that the first two tests add. */
  function EnglishSubtitles(): Media
  {
    Media(Some("english_sub.m3u8"), Subtitles, "subs", Some("en"), None, "English", Yes, Yes, No, None, None)
  }

  /** It is the rendition `Media(...)` makes of the tests' arguments. */
  lemma EnglishSubtitlesMade()
    ensures NewMedia(SubtitleArgs("YES")) == Success(EnglishSubtitles())
  {
    var m := SubtitleMedia("YES");
  }

  lemma EnglishSubtitlesSlots()
    ensures MediaSlots(EnglishSubtitles()) ==
      [Slot("URI", Some(Quoted("english_sub.m3u8"))), Slot("TYPE", Some(Bare("SUBTITLES"))), Slot("GROUP-ID", Some(Quoted("subs"))),
       Slot("LANGUAGE", Some(Quoted("en"))), Slot("ASSOC-LANGUAGE", None), Slot("NAME", Some(Quoted("English"))),
       Slot("DEFAULT", Some(Bare("YES"))), Slot("AUTOSELECT", Some(Bare("YES"))), Slot("FORCED", Some(Bare("NO"))),
       Slot("INSTREAM-ID", None), Slot("CHARACTERISTICS", None)]
  {
  }

  lemma EnglishSubtitlesPresent()
    ensures Present([Slot("URI", Some(Quoted("english_sub.m3u8"))), Slot("TYPE", Some(Bare("SUBTITLES"))), Slot("GROUP-ID", Some(Quoted("subs"))),
       Slot("LANGUAGE", Some(Quoted("en"))), Slot("ASSOC-LANGUAGE", None), Slot("NAME", Some(Quoted("English"))),
       Slot("DEFAULT", Some(Bare("YES"))), Slot("AUTOSELECT", Some(Bare("YES"))), Slot("FORCED", Some(Bare("NO"))),
       Slot("INSTREAM-ID", None), Slot("CHARACTERISTICS", None)]) ==
      [Attr("URI", Quoted("english_sub.m3u8")),
       Attr("TYPE", Bare("SUBTITLES")),
       Attr("GROUP-ID", Quoted("subs")),
       Attr("LANGUAGE", Quoted("en")),
       Attr("NAME", Quoted("English")),
       Attr("DEFAULT", Bare("YES")),
       Attr("AUTOSELECT", Bare("YES")),
       Attr("FORCED", Bare("NO"))]
  {
  }

  /** The attributes written, in order, each quoted or bare. */
  lemma EnglishSubtitlesAttrs()
    ensures MediaAttrs(EnglishSubtitles()) ==
      [Attr("URI", Quoted("english_sub.m3u8")),
       Attr("TYPE", Bare("SUBTITLES")),
       Attr("GROUP-ID", Quoted("subs")),
       Attr("LANGUAGE", Quoted("en")),
       Attr("NAME", Quoted("English")),
       Attr("DEFAULT", Bare("YES")),
       Attr("AUTOSELECT", Bare("YES")),
       Attr("FORCED", Bare("NO"))]
  {
    EnglishSubtitlesSlots();
    EnglishSubtitlesPresent();
  }

  lemma EnglishSubtitlesTexts()
    ensures AttrText(Attr("URI", Quoted("english_sub.m3u8"))) == ("URI=\"" + "english_sub.m3u8" + "\"")
    ensures AttrText(Attr("TYPE", Bare("SUBTITLES"))) == "TYPE=SUBTITLES"
    ensures AttrText(Attr("GROUP-ID", Quoted("subs"))) == ("GROUP-ID=\"" + "subs" + "\"")
    ensures AttrText(Attr("LANGUAGE", Quoted("en"))) == ("LANGUAGE=\"" + "en" + "\"")
    ensures AttrText(Attr("NAME", Quoted("English"))) == ("NAME=\"" + "English" + "\"")
    ensures AttrText(Attr("DEFAULT", Bare("YES"))) == "DEFAULT=YES"
    ensures AttrText(Attr("AUTOSELECT", Bare("YES"))) == "AUTOSELECT=YES"
    ensures AttrText(Attr("FORCED", Bare("NO"))) == "FORCED=NO"
  {
  }

  /** The expected line, split at its commas and quotes. */
  const EnglishSubtitlesText: string := "#EXT-X-MEDIA:"
    + (("URI=\"" + "english_sub.m3u8" + "\"") + ","
      + "TYPE=SUBTITLES" + ","
      + ("GROUP-ID=\"" + "subs" + "\"") + ","
      + ("LANGUAGE=\"" + "en" + "\"") + ","
      + ("NAME=\"" + "English" + "\"") + ","
      + "DEFAULT=YES" + ","
      + "AUTOSELECT=YES" + ","
      + "FORCED=NO")

  /** Eight attributes are written one after another, separated by commas. */
  lemma EncodeEight(a0: Attr, a1: Attr, a2: Attr, a3: Attr, a4: Attr, a5: Attr, a6: Attr, a7: Attr)
    ensures Encode([a0] + [a1] + [a2] + [a3] + [a4] + [a5] + [a6] + [a7]) ==
      AttrText(a0) + "," + AttrText(a1) + "," + AttrText(a2) + "," + AttrText(a3) + ","
      + AttrText(a4) + "," + AttrText(a5) + "," + AttrText(a6) + "," + AttrText(a7)
  {
    EncodeSnoc([a0], a1);
    EncodeSnoc([a0] + [a1], a2);
    EncodeSnoc([a0] + [a1] + [a2], a3);
    EncodeSnoc([a0] + [a1] + [a2] + [a3], a4);
    EncodeSnoc([a0] + [a1] + [a2] + [a3] + [a4], a5);
    EncodeSnoc([a0] + [a1] + [a2] + [a3] + [a4] + [a5], a6);
    EncodeSnoc([a0] + [a1] + [a2] + [a3] + [a4] + [a5] + [a6], a7);
  }

  lemma EnglishSubtitlesLine()
    ensures MediaLine(EnglishSubtitles()) == EnglishSubtitlesText
  {
    EnglishSubtitlesAttrs();
    var a0 := Attr("URI", Quoted("english_sub.m3u8"));
    var a1 := Attr("TYPE", Bare("SUBTITLES"));
    var a2 := Attr("GROUP-ID", Quoted("subs"));
    var a3 := Attr("LANGUAGE", Quoted("en"));
    var a4 := Attr("NAME", Quoted("English"));
    var a5 := Attr("DEFAULT", Bare("YES"));
    var a6 := Attr("AUTOSELECT", Bare("YES"));
    var a7 := Attr("FORCED", Bare("NO"));
    assert MediaAttrs(EnglishSubtitles()) == [a0] + [a1] + [a2] + [a3] + [a4] + [a5] + [a6] + [a7];
    EncodeEight(a0, a1, a2, a3, a4, a5, a6, a7);
    EnglishSubtitlesTexts();
  }

  // ---- LowPlaylist ----

  /** The low-bandwidth variant stream of the first test; it refers to the subtitles rendition. */
  function LowPlaylist(): Playlist
  {
    Playlist("http://example.com/low.m3u8", Info(1280000, None, None, None), [EnglishSubtitles()], None)
  }

  lemma LowPlaylistSlots()
    ensures StreamInfSlots(LowPlaylist()) ==
      [Slot("PROGRAM-ID", Some(Bare(NatToString(1)))), Slot("BANDWIDTH", Some(Bare(NatToString(1280000)))), Slot("AVERAGE-BANDWIDTH", None),
       Slot("RESOLUTION", None), Slot("CODECS", None), Slot("AUDIO", None),
       Slot("VIDEO", None), Slot("SUBTITLES", Some(Quoted("subs"))), Slot("CLOSED-CAPTIONS", None)]
  {
    assert EmittedRef(LowPlaylist(), Subtitles) == Some("subs") by { assert EnglishSubtitles() in LowPlaylist().media; }
  }

  lemma LowPlaylistPresent()
    ensures Present([Slot("PROGRAM-ID", Some(Bare("1"))), Slot("BANDWIDTH", Some(Bare("1280000"))), Slot("AVERAGE-BANDWIDTH", None),
       Slot("RESOLUTION", None), Slot("CODECS", None), Slot("AUDIO", None),
       Slot("VIDEO", None), Slot("SUBTITLES", Some(Quoted("subs"))), Slot("CLOSED-CAPTIONS", None)]) ==
      [Attr("PROGRAM-ID", Bare("1")),
       Attr("BANDWIDTH", Bare("1280000")),
       Attr("SUBTITLES", Quoted("subs"))]
  {
  }

  /** The attributes written, in order, each quoted or bare. */
  lemma LowPlaylistAttrs()
    ensures StreamInfAttrs(LowPlaylist()) ==
      [Attr("PROGRAM-ID", Bare("1")),
       Attr("BANDWIDTH", Bare("1280000")),
       Attr("SUBTITLES", Quoted("subs"))]
  {
    LowPlaylistSlots();
    BandwidthNumerals();
    LowPlaylistPresent();
  }

  lemma LowPlaylistTexts()
    ensures AttrText(Attr("PROGRAM-ID", Bare("1"))) == "PROGRAM-ID=1"
    ensures AttrText(Attr("BANDWIDTH", Bare("1280000"))) == "BANDWIDTH=1280000"
    ensures AttrText(Attr("SUBTITLES", Quoted("subs"))) == ("SUBTITLES=\"" + "subs" + "\"")
  {
  }

  /** The expected line, split at its commas and quotes. */
  const LowPlaylistText: string := "#EXT-X-STREAM-INF:"
    + ("PROGRAM-ID=1" + ","
      + "BANDWIDTH=1280000" + ","
      + ("SUBTITLES=\"" + "subs" + "\""))

  lemma LowPlaylistLine()
    ensures StreamInfLine(LowPlaylist()) == LowPlaylistText
  {
    LowPlaylistAttrs();
    var a0 := Attr("PROGRAM-ID", Bare("1"));
    var a1 := Attr("BANDWIDTH", Bare("1280000"));
    var a2 := Attr("SUBTITLES", Quoted("subs"));
    assert StreamInfAttrs(LowPlaylist()) == [a0] + [a1] + [a2];
    EncodeSnoc([a0], a1);
    EncodeSnoc([a0] + [a1], a2);
    LowPlaylistTexts();
  }

  // ---- HighPlaylist ----

  /** The high-bandwidth variant stream of the first test. */
  function HighPlaylist(): Playlist
  {
    Playlist("http://example.com/high.m3u8", Info(3000000, None, None, None), [EnglishSubtitles()], None)
  }

  lemma HighPlaylistSlots()
    ensures StreamInfSlots(HighPlaylist()) ==
      [Slot("PROGRAM-ID", Some(Bare(NatToString(1)))), Slot("BANDWIDTH", Some(Bare(NatToString(3000000)))), Slot("AVERAGE-BANDWIDTH", None),
       Slot("RESOLUTION", None), Slot("CODECS", None), Slot("AUDIO", None),
       Slot("VIDEO", None), Slot("SUBTITLES", Some(Quoted("subs"))), Slot("CLOSED-CAPTIONS", None)]
  {
    assert EmittedRef(HighPlaylist(), Subtitles) == Some("subs") by { assert EnglishSubtitles() in HighPlaylist().media; }
  }

  lemma HighPlaylistPresent()
    ensures Present([Slot("PROGRAM-ID", Some(Bare("1"))), Slot("BANDWIDTH", Some(Bare("3000000"))), Slot("AVERAGE-BANDWIDTH", None),
       Slot("RESOLUTION", None), Slot("CODECS", None), Slot("AUDIO", None),
       Slot("VIDEO", None), Slot("SUBTITLES", Some(Quoted("subs"))), Slot("CLOSED-CAPTIONS", None)]) ==
      [Attr("PROGRAM-ID", Bare("1")),
       Attr("BANDWIDTH", Bare("3000000")),
       Attr("SUBTITLES", Quoted("subs"))]
  {
  }

  /** The attributes written, in order, each quoted or bare. */
  lemma HighPlaylistAttrs()
    ensures StreamInfAttrs(HighPlaylist()) ==
      [Attr("PROGRAM-ID", Bare("1")),
       Attr("BANDWIDTH", Bare("3000000")),
       Attr("SUBTITLES", Quoted("subs"))]
  {
    HighPlaylistSlots();
    BandwidthNumerals();
    HighPlaylistPresent();
  }

  lemma HighPlaylistTexts()
    ensures AttrText(Attr("PROGRAM-ID", Bare("1"))) == "PROGRAM-ID=1"
    ensures AttrText(Attr("BANDWIDTH", Bare("3000000"))) == "BANDWIDTH=3000000"
    ensures AttrText(Attr("SUBTITLES", Quoted("subs"))) == ("SUBTITLES=\"" + "subs" + "\"")
  {
  }

  /** The expected line, split at its commas and quotes. */
  const HighPlaylistText: string := "#EXT-X-STREAM-INF:"
    + ("PROGRAM-ID=1" + ","
      + "BANDWIDTH=3000000" + ","
      + ("SUBTITLES=\"" + "subs" + "\""))

  lemma HighPlaylistLine()
    ensures StreamInfLine(HighPlaylist()) == HighPlaylistText
  {
    HighPlaylistAttrs();
    var a0 := Attr("PROGRAM-ID", Bare("1"));
    var a1 := Attr("BANDWIDTH", Bare("3000000"));
    var a2 := Attr("SUBTITLES", Quoted("subs"));
    assert StreamInfAttrs(HighPlaylist()) == [a0] + [a1] + [a2];
    EncodeSnoc([a0], a1);
    EncodeSnoc([a0] + [a1], a2);
    HighPlaylistTexts();
  }

  // ---- LowVideo ----

  /** The 800k variant stream of the second test; its base URI is not written. */
  function LowVideo(): Playlist
  {
    Playlist("video-800k.m3u8", Info(800000, None, Some("624x352"), Some("avc1.4d001f, mp4a.40.5")), [EnglishSubtitles()], Some("http://example.com/"))
  }

  lemma LowVideoSlots()
    ensures StreamInfSlots(LowVideo()) ==
      [Slot("PROGRAM-ID", Some(Bare(NatToString(1)))), Slot("BANDWIDTH", Some(Bare(NatToString(800000)))), Slot("AVERAGE-BANDWIDTH", None),
       Slot("RESOLUTION", Some(Bare("624x352"))), Slot("CODECS", Some(Quoted("avc1.4d001f, mp4a.40.5"))), Slot("AUDIO", None),
       Slot("VIDEO", None), Slot("SUBTITLES", Some(Quoted("subs"))), Slot("CLOSED-CAPTIONS", None)]
  {
    assert EmittedRef(LowVideo(), Subtitles) == Some("subs") by { assert EnglishSubtitles() in LowVideo().media; }
  }

  lemma LowVideoPresent()
    ensures Present([Slot("PROGRAM-ID", Some(Bare("1"))), Slot("BANDWIDTH", Some(Bare("800000"))), Slot("AVERAGE-BANDWIDTH", None),
       Slot("RESOLUTION", Some(Bare("624x352"))), Slot("CODECS", Some(Quoted("avc1.4d001f, mp4a.40.5"))), Slot("AUDIO", None),
       Slot("VIDEO", None), Slot("SUBTITLES", Some(Quoted("subs"))), Slot("CLOSED-CAPTIONS", None)]) ==
      [Attr("PROGRAM-ID", Bare("1")),
       Attr("BANDWIDTH", Bare("800000")),
       Attr("RESOLUTION", Bare("624x352")),
       Attr("CODECS", Quoted("avc1.4d001f, mp4a.40.5")),
       Attr("SUBTITLES", Quoted("subs"))]
  {
  }

  /** The attributes written, in order, each quoted or bare. */
  lemma LowVideoAttrs()
    ensures StreamInfAttrs(LowVideo()) ==
      [Attr("PROGRAM-ID", Bare("1")),
       Attr("BANDWIDTH", Bare("800000")),
       Attr("RESOLUTION", Bare("624x352")),
       Attr("CODECS", Quoted("avc1.4d001f, mp4a.40.5")),
       Attr("SUBTITLES", Quoted("subs"))]
  {
    LowVideoSlots();
    BandwidthNumerals();
    VideoNumerals();
    LowVideoPresent();
  }

  lemma LowVideoTexts()
    ensures AttrText(Attr("PROGRAM-ID", Bare("1"))) == "PROGRAM-ID=1"
    ensures AttrText(Attr("BANDWIDTH", Bare("800000"))) == "BANDWIDTH=800000"
    ensures AttrText(Attr("RESOLUTION", Bare("624x352"))) == "RESOLUTION=624x352"
    ensures AttrText(Attr("CODECS", Quoted("avc1.4d001f, mp4a.40.5"))) == ("CODECS=\"" + "avc1.4d001f, mp4a.40.5" + "\"")
    ensures AttrText(Attr("SUBTITLES", Quoted("subs"))) == ("SUBTITLES=\"" + "subs" + "\"")
  {
  }

  /** The expected line, split at its commas and quotes. */
  const LowVideoText: string := "#EXT-X-STREAM-INF:"
    + ("PROGRAM-ID=1" + ","
      + "BANDWIDTH=800000" + ","
      + "RESOLUTION=624x352" + ","
      + ("CODECS=\"" + "avc1.4d001f, mp4a.40.5" + "\"") + ","
      + ("SUBTITLES=\"" + "subs" + "\""))

  lemma LowVideoLine()
    ensures StreamInfLine(LowVideo()) == LowVideoText
  {
    LowVideoAttrs();
    var a0 := Attr("PROGRAM-ID", Bare("1"));
    var a1 := Attr("BANDWIDTH", Bare("800000"));
    var a2 := Attr("RESOLUTION", Bare("624x352"));
    var a3 := Attr("CODECS", Quoted("avc1.4d001f, mp4a.40.5"));
    var a4 := Attr("SUBTITLES", Quoted("subs"));
    assert StreamInfAttrs(LowVideo()) == [a0] + [a1] + [a2] + [a3] + [a4];
    EncodeSnoc([a0], a1);
    EncodeSnoc([a0] + [a1], a2);
    EncodeSnoc([a0] + [a1] + [a2], a3);
    EncodeSnoc([a0] + [a1] + [a2] + [a3], a4);
    LowVideoTexts();
  }

  // ---- HighVideo ----

  /** The 1200k variant stream of the second test, without RESOLUTION. */
  function HighVideo(): Playlist
  {
    Playlist("video-1200k.m3u8", Info(1200000, None, None, Some("avc1.4d001f, mp4a.40.5")), [EnglishSubtitles()], Some("http://example.com/"))
  }

  lemma HighVideoSlots()
    ensures StreamInfSlots(HighVideo()) ==
      [Slot("PROGRAM-ID", Some(Bare(NatToString(1)))), Slot("BANDWIDTH", Some(Bare(NatToString(1200000)))), Slot("AVERAGE-BANDWIDTH", None),
       Slot("RESOLUTION", None), Slot("CODECS", Some(Quoted("avc1.4d001f, mp4a.40.5"))), Slot("AUDIO", None),
       Slot("VIDEO", None), Slot("SUBTITLES", Some(Quoted("subs"))), Slot("CLOSED-CAPTIONS", None)]
  {
    assert EmittedRef(HighVideo(), Subtitles) == Some("subs") by { assert EnglishSubtitles() in HighVideo().media; }
  }

  lemma HighVideoPresent()
    ensures Present([Slot("PROGRAM-ID", Some(Bare("1"))), Slot("BANDWIDTH", Some(Bare("1200000"))), Slot("AVERAGE-BANDWIDTH", None),
       Slot("RESOLUTION", None), Slot("CODECS", Some(Quoted("avc1.4d001f, mp4a.40.5"))), Slot("AUDIO", None),
       Slot("VIDEO", None), Slot("SUBTITLES", Some(Quoted("subs"))), Slot("CLOSED-CAPTIONS", None)]) ==
      [Attr("PROGRAM-ID", Bare("1")),
       Attr("BANDWIDTH", Bare("1200000")),
       Attr("CODECS", Quoted("avc1.4d001f, mp4a.40.5")),
       Attr("SUBTITLES", Quoted("subs"))]
  {
  }

  /** The attributes written, in order, each quoted or bare. */
  lemma HighVideoAttrs()
    ensures StreamInfAttrs(HighVideo()) ==
      [Attr("PROGRAM-ID", Bare("1")),
       Attr("BANDWIDTH", Bare("1200000")),
       Attr("CODECS", Quoted("avc1.4d001f, mp4a.40.5")),
       Attr("SUBTITLES", Quoted("subs"))]
  {
    HighVideoSlots();
    BandwidthNumerals();
    VideoNumerals();
    HighVideoPresent();
  }

  lemma HighVideoTexts()
    ensures AttrText(Attr("PROGRAM-ID", Bare("1"))) == "PROGRAM-ID=1"
    ensures AttrText(Attr("BANDWIDTH", Bare("1200000"))) == "BANDWIDTH=1200000"
    ensures AttrText(Attr("CODECS", Quoted("avc1.4d001f, mp4a.40.5"))) == ("CODECS=\"" + "avc1.4d001f, mp4a.40.5" + "\"")
    ensures AttrText(Attr("SUBTITLES", Quoted("subs"))) == ("SUBTITLES=\"" + "subs" + "\"")
  {
  }

  /** The expected line, split at its commas and quotes. */
  const HighVideoText: string := "#EXT-X-STREAM-INF:"
    + ("PROGRAM-ID=1" + ","
      + "BANDWIDTH=1200000" + ","
      + ("CODECS=\"" + "avc1.4d001f, mp4a.40.5" + "\"") + ","
      + ("SUBTITLES=\"" + "subs" + "\""))

  lemma HighVideoLine()
    ensures StreamInfLine(HighVideo()) == HighVideoText
  {
    HighVideoAttrs();
    var a0 := Attr("PROGRAM-ID", Bare("1"));
    var a1 := Attr("BANDWIDTH", Bare("1200000"));
    var a2 := Attr("CODECS", Quoted("avc1.4d001f, mp4a.40.5"));
    var a3 := Attr("SUBTITLES", Quoted("subs"));
    assert StreamInfAttrs(HighVideo()) == [a0] + [a1] + [a2] + [a3];
    EncodeSnoc([a0], a1);
    EncodeSnoc([a0] + [a1], a2);
    EncodeSnoc([a0] + [a1] + [a2], a3);
    HighVideoTexts();
  }

  // ---- LowIFrames ----

  /** The 800k I-frame stream of the second test. */
  function LowIFrames(): IFramePlaylist
  {
    IFramePlaylist("video-800k-iframes.m3u8", IFrameStreamInfo(151288, Some(1), Some("624x352"), Some("avc1.4d001f")), Some("http://example.com/"))
  }

  lemma LowIFramesSlots()
    ensures IFrameSlots(LowIFrames()) ==
      [Slot("PROGRAM-ID", Some(Bare(NatToString(1)))), Slot("BANDWIDTH", Some(Bare(NatToString(151288)))), Slot("RESOLUTION", Some(Bare("624x352"))),
       Slot("CODECS", Some(Quoted("avc1.4d001f"))), Slot("URI", Some(Quoted("video-800k-iframes.m3u8")))]
  {
  }

  lemma LowIFramesPresent()
    ensures Present([Slot("PROGRAM-ID", Some(Bare("1"))), Slot("BANDWIDTH", Some(Bare("151288"))), Slot("RESOLUTION", Some(Bare("624x352"))),
       Slot("CODECS", Some(Quoted("avc1.4d001f"))), Slot("URI", Some(Quoted("video-800k-iframes.m3u8")))]) ==
      [Attr("PROGRAM-ID", Bare("1")),
       Attr("BANDWIDTH", Bare("151288")),
       Attr("RESOLUTION", Bare("624x352")),
       Attr("CODECS", Quoted("avc1.4d001f")),
       Attr("URI", Quoted("video-800k-iframes.m3u8"))]
  {
  }

  /** The attributes written, in order, each quoted or bare. */
  lemma LowIFramesAttrs()
    ensures IFrameAttrs(LowIFrames()) ==
      [Attr("PROGRAM-ID", Bare("1")),
       Attr("BANDWIDTH", Bare("151288")),
       Attr("RESOLUTION", Bare("624x352")),
       Attr("CODECS", Quoted("avc1.4d001f")),
       Attr("URI", Quoted("video-800k-iframes.m3u8"))]
  {
    LowIFramesSlots();
    BandwidthNumerals();
    IFrameNumerals();
    LowIFramesPresent();
  }

  lemma LowIFramesTexts()
    ensures AttrText(Attr("PROGRAM-ID", Bare("1"))) == "PROGRAM-ID=1"
    ensures AttrText(Attr("BANDWIDTH", Bare("151288"))) == "BANDWIDTH=151288"
    ensures AttrText(Attr("RESOLUTION", Bare("624x352"))) == "RESOLUTION=624x352"
    ensures AttrText(Attr("CODECS", Quoted("avc1.4d001f"))) == ("CODECS=\"" + "avc1.4d001f" + "\"")
    ensures AttrText(Attr("URI", Quoted("video-800k-iframes.m3u8"))) == ("URI=\"" + "video-800k-iframes.m3u8" + "\"")
  {
  }

  /** The expected line, split at its commas and quotes. */
  const LowIFramesText: string := "#EXT-X-I-FRAME-STREAM-INF:"
    + ("PROGRAM-ID=1" + ","
      + "BANDWIDTH=151288" + ","
      + "RESOLUTION=624x352" + ","
      + ("CODECS=\"" + "avc1.4d001f" + "\"") + ","
      + ("URI=\"" + "video-800k-iframes.m3u8" + "\""))

  lemma LowIFramesLine()
    ensures IFrameLine(LowIFrames()) == LowIFramesText
  {
    LowIFramesAttrs();
    var a0 := Attr("PROGRAM-ID", Bare("1"));
    var a1 := Attr("BANDWIDTH", Bare("151288"));
    var a2 := Attr("RESOLUTION", Bare("624x352"));
    var a3 := Attr("CODECS", Quoted("avc1.4d001f"));
    var a4 := Attr("URI", Quoted("video-800k-iframes.m3u8"));
    assert IFrameAttrs(LowIFrames()) == [a0] + [a1] + [a2] + [a3] + [a4];
    EncodeSnoc([a0], a1);
    EncodeSnoc([a0] + [a1], a2);
    EncodeSnoc([a0] + [a1] + [a2], a3);
    EncodeSnoc([a0] + [a1] + [a2] + [a3], a4);
    LowIFramesTexts();
  }

  // ---- HighIFrames ----

  /** The 1200k I-frame stream of the second test, with no PROGRAM-ID and no RESOLUTION. */
  function HighIFrames(): IFramePlaylist
  {
    IFramePlaylist("video-1200k-iframes.m3u8", IFrameStreamInfo(193350, None, None, Some("avc1.4d001f")), Some("http://example.com/"))
  }

  lemma HighIFramesSlots()
    ensures IFrameSlots(HighIFrames()) ==
      [Slot("PROGRAM-ID", None), Slot("BANDWIDTH", Some(Bare(NatToString(193350)))), Slot("RESOLUTION", None),
       Slot("CODECS", Some(Quoted("avc1.4d001f"))), Slot("URI", Some(Quoted("video-1200k-iframes.m3u8")))]
  {
  }

  lemma HighIFramesPresent()
    ensures Present([Slot("PROGRAM-ID", None), Slot("BANDWIDTH", Some(Bare("193350"))), Slot("RESOLUTION", None),
       Slot("CODECS", Some(Quoted("avc1.4d001f"))), Slot("URI", Some(Quoted("video-1200k-iframes.m3u8")))]) ==
      [Attr("BANDWIDTH", Bare("193350")),
       Attr("CODECS", Quoted("avc1.4d001f")),
       Attr("URI", Quoted("video-1200k-iframes.m3u8"))]
  {
  }

  /** The attributes written, in order, each quoted or bare. */
  lemma HighIFramesAttrs()
    ensures IFrameAttrs(HighIFrames()) ==
      [Attr("BANDWIDTH", Bare("193350")),
       Attr("CODECS", Quoted("avc1.4d001f")),
       Attr("URI", Quoted("video-1200k-iframes.m3u8"))]
  {
    HighIFramesSlots();
    IFrameNumerals();
    HighIFramesPresent();
  }

  lemma HighIFramesTexts()
    ensures AttrText(Attr("BANDWIDTH", Bare("193350"))) == "BANDWIDTH=193350"
    ensures AttrText(Attr("CODECS", Quoted("avc1.4d001f"))) == ("CODECS=\"" + "avc1.4d001f" + "\"")
    ensures AttrText(Attr("URI", Quoted("video-1200k-iframes.m3u8"))) == ("URI=\"" + "video-1200k-iframes.m3u8" + "\"")
  {
  }

  /** The expected line, split at its commas and quotes. */
  const HighIFramesText: string := "#EXT-X-I-FRAME-STREAM-INF:"
    + ("BANDWIDTH=193350" + ","
      + ("CODECS=\"" + "avc1.4d001f" + "\"") + ","
      + ("URI=\"" + "video-1200k-iframes.m3u8" + "\""))

  lemma HighIFramesLine()
    ensures IFrameLine(HighIFrames()) == HighIFramesText
  {
    HighIFramesAttrs();
    var a0 := Attr("BANDWIDTH", Bare("193350"));
    var a1 := Attr("CODECS", Quoted("avc1.4d001f"));
    var a2 := Attr("URI", Quoted("video-1200k-iframes.m3u8"));
    assert IFrameAttrs(HighIFrames()) == [a0] + [a1] + [a2];
    EncodeSnoc([a0], a1);
    EncodeSnoc([a0] + [a1], a2);
    HighIFramesTexts();
  }

  // ---- LowAverage ----

  /** The low stream of the third test: it names the group `subs` but holds no rendition, so SUBTITLES is not written. */
  function LowAverage(): Playlist
  {
    Playlist("http://example.com/low.m3u8", Info(1280000, Some(1257891), None, None), [], None)
  }

  lemma LowAverageSlots()
    ensures StreamInfSlots(LowAverage()) ==
      [Slot("PROGRAM-ID", Some(Bare(NatToString(1)))), Slot("BANDWIDTH", Some(Bare(NatToString(1280000)))), Slot("AVERAGE-BANDWIDTH", Some(Bare(NatToString(1257891)))),
       Slot("RESOLUTION", None), Slot("CODECS", None), Slot("AUDIO", None),
       Slot("VIDEO", None), Slot("SUBTITLES", None), Slot("CLOSED-CAPTIONS", None)]
  {
  }

  lemma LowAveragePresent()
    ensures Present([Slot("PROGRAM-ID", Some(Bare("1"))), Slot("BANDWIDTH", Some(Bare("1280000"))), Slot("AVERAGE-BANDWIDTH", Some(Bare("1257891"))),
       Slot("RESOLUTION", None), Slot("CODECS", None), Slot("AUDIO", None),
       Slot("VIDEO", None), Slot("SUBTITLES", None), Slot("CLOSED-CAPTIONS", None)]) ==
      [Attr("PROGRAM-ID", Bare("1")),
       Attr("BANDWIDTH", Bare("1280000")),
       Attr("AVERAGE-BANDWIDTH", Bare("1257891"))]
  {
  }

  /** The attributes written, in order, each quoted or bare. */
  lemma LowAverageAttrs()
    ensures StreamInfAttrs(LowAverage()) ==
      [Attr("PROGRAM-ID", Bare("1")),
       Attr("BANDWIDTH", Bare("1280000")),
       Attr("AVERAGE-BANDWIDTH", Bare("1257891"))]
  {
    LowAverageSlots();
    BandwidthNumerals();
    AverageNumerals();
    LowAveragePresent();
  }

  lemma LowAverageTexts()
    ensures AttrText(Attr("PROGRAM-ID", Bare("1"))) == "PROGRAM-ID=1"
    ensures AttrText(Attr("BANDWIDTH", Bare("1280000"))) == "BANDWIDTH=1280000"
    ensures AttrText(Attr("AVERAGE-BANDWIDTH", Bare("1257891"))) == "AVERAGE-BANDWIDTH=1257891"
  {
  }

  /** The expected line, split at its commas and quotes. */
  const LowAverageText: string := "#EXT-X-STREAM-INF:"
    + ("PROGRAM-ID=1" + ","
      + "BANDWIDTH=1280000" + ","
      + "AVERAGE-BANDWIDTH=1257891")

  lemma LowAverageLine()
    ensures StreamInfLine(LowAverage()) == LowAverageText
  {
    LowAverageAttrs();
    var a0 := Attr("PROGRAM-ID", Bare("1"));
    var a1 := Attr("BANDWIDTH", Bare("1280000"));
    var a2 := Attr("AVERAGE-BANDWIDTH", Bare("1257891"));
    assert StreamInfAttrs(LowAverage()) == [a0] + [a1] + [a2];
    EncodeSnoc([a0], a1);
    EncodeSnoc([a0] + [a1], a2);
    LowAverageTexts();
  }

  // ---- HighAverage ----

  /** The high stream of the third test, with the same unbacked `subs` group. */
  function HighAverage(): Playlist
  {
    Playlist("http://example.com/high.m3u8", Info(3000000, Some(2857123), None, None), [], None)
  }

  lemma HighAverageSlots()
    ensures StreamInfSlots(HighAverage()) ==
      [Slot("PROGRAM-ID", Some(Bare(NatToString(1)))), Slot("BANDWIDTH", Some(Bare(NatToString(3000000)))), Slot("AVERAGE-BANDWIDTH", Some(Bare(NatToString(2857123)))),
       Slot("RESOLUTION", None), Slot("CODECS", None), Slot("AUDIO", None),
       Slot("VIDEO", None), Slot("SUBTITLES", None), Slot("CLOSED-CAPTIONS", None)]
  {
  }

  lemma HighAveragePresent()
    ensures Present([Slot("PROGRAM-ID", Some(Bare("1"))), Slot("BANDWIDTH", Some(Bare("3000000"))), Slot("AVERAGE-BANDWIDTH", Some(Bare("2857123"))),
       Slot("RESOLUTION", None), Slot("CODECS", None), Slot("AUDIO", None),
       Slot("VIDEO", None), Slot("SUBTITLES", None), Slot("CLOSED-CAPTIONS", None)]) ==
      [Attr("PROGRAM-ID", Bare("1")),
       Attr("BANDWIDTH", Bare("3000000")),
       Attr("AVERAGE-BANDWIDTH", Bare("2857123"))]
  {
  }

  /** The attributes written, in order, each quoted or bare. */
  lemma HighAverageAttrs()
    ensures StreamInfAttrs(HighAverage()) ==
      [Attr("PROGRAM-ID", Bare("1")),
       Attr("BANDWIDTH", Bare("3000000")),
       Attr("AVERAGE-BANDWIDTH", Bare("2857123"))]
  {
    HighAverageSlots();
    BandwidthNumerals();
    AverageNumerals();
    HighAveragePresent();
  }

  lemma HighAverageTexts()
    ensures AttrText(Attr("PROGRAM-ID", Bare("1"))) == "PROGRAM-ID=1"
    ensures AttrText(Attr("BANDWIDTH", Bare("3000000"))) == "BANDWIDTH=3000000"
    ensures AttrText(Attr("AVERAGE-BANDWIDTH", Bare("2857123"))) == "AVERAGE-BANDWIDTH=2857123"
  {
  }

  /** The expected line, split at its commas and quotes. */
  const HighAverageText: string := "#EXT-X-STREAM-INF:"
    + ("PROGRAM-ID=1" + ","
      + "BANDWIDTH=3000000" + ","
      + "AVERAGE-BANDWIDTH=2857123")

  lemma HighAverageLine()
    ensures StreamInfLine(HighAverage()) == HighAverageText
  {
    HighAverageAttrs();
    var a0 := Attr("PROGRAM-ID", Bare("1"));
    var a1 := Attr("BANDWIDTH", Bare("3000000"));
    var a2 := Attr("AVERAGE-BANDWIDTH", Bare("2857123"));
    assert StreamInfAttrs(HighAverage()) == [a0] + [a1] + [a2];
    EncodeSnoc([a0], a1);
    EncodeSnoc([a0] + [a1], a2);
    HighAverageTexts();
  }

  // ---- documents ----

  /** The lines of a document with one rendition, two variant streams and I-frame streams `fs`. */
  lemma {:induction false} OneMediaTwoStreams(m: Media, low: Playlist, high: Playlist, fs: seq<IFramePlaylist>)
    ensures DocLines(Manifest([m], [low, high], fs, [])) ==
      [Header, MediaLine(m), StreamInfLine(low), low.uri, StreamInfLine(high), high.uri] + IFrameLines(fs)
  {
    assert [m][1..] == [];
    assert MediaLines([m]) == [MediaLine(m)];
    TwoPlaylistLines(low, high);
  }

  lemma {:induction false} TwoPlaylistLines(low: Playlist, high: Playlist)
    ensures PlaylistLines([low, high]) == [StreamInfLine(low), low.uri, StreamInfLine(high), high.uri]
  {
    assert [low, high][1..] == [high] && [high][1..] == [];
    assert PlaylistLines([high]) == [StreamInfLine(high), high.uri];
  }

  lemma {:induction false} TwoIFrameLines(low: IFramePlaylist, high: IFramePlaylist)
    ensures IFrameLines([low, high]) == [IFrameLine(low), IFrameLine(high)]
  {
    assert [low, high][1..] == [high] && [high][1..] == [];
    assert IFrameLines([high]) == [IFrameLine(high)];
  }

  /** The lines of a document with two variant streams and nothing else. */
  lemma {:induction false} TwoStreams(low: Playlist, high: Playlist)
    ensures DocLines(Manifest([], [low, high], [], [])) ==
      [Header, StreamInfLine(low), low.uri, StreamInfLine(high), high.uri]
  {
    TwoPlaylistLines(low, high);
  }

  /** The document of `test_create_a_variant_m3u8_with_two_playlists`. */
  function TwoPlaylists(): Manifest
  {
    Manifest([EnglishSubtitles()], [LowPlaylist(), HighPlaylist()], [], [])
  }

  /** Its lines: the header, then each line its entries write, in order. */
  lemma TwoPlaylistsLines()
    ensures DocLines(TwoPlaylists()) ==
      ["#EXTM3U", EnglishSubtitlesText,
       LowPlaylistText, "http://example.com/low.m3u8",
       HighPlaylistText, "http://example.com/high.m3u8"]
  {
    OneMediaTwoStreams(EnglishSubtitles(), LowPlaylist(), HighPlaylist(), []);
    EnglishSubtitlesLine();
    LowPlaylistLine();
    HighPlaylistLine();
  }

  /** The document of `test_create_a_variant_m3u8_with_two_playlists_and_two_iframe_playlists`. */
  function TwoPlaylistsTwoIFrames(): Manifest
  {
    Manifest([EnglishSubtitles()], [LowVideo(), HighVideo()], [LowIFrames(), HighIFrames()], [])
  }

  lemma TwoPlaylistsTwoIFramesLines()
    ensures DocLines(TwoPlaylistsTwoIFrames()) ==
      ["#EXTM3U", EnglishSubtitlesText,
       LowVideoText, "video-800k.m3u8",
       HighVideoText, "video-1200k.m3u8",
       LowIFramesText, HighIFramesText]
  {
    OneMediaTwoStreams(EnglishSubtitles(), LowVideo(), HighVideo(), [LowIFrames(), HighIFrames()]);
    TwoIFrameLines(LowIFrames(), HighIFrames());
    EnglishSubtitlesLine();
    LowVideoLine();
    HighVideoLine();
    LowIFramesLine();
    HighIFramesLine();
  }

  /** The document of `test_variant_playlist_with_average_bandwidth`. */
  function AverageBandwidth(): Manifest
  {
    Manifest([], [LowAverage(), HighAverage()], [], [])
  }

  lemma AverageBandwidthLines()
    ensures DocLines(AverageBandwidth()) ==
      ["#EXTM3U",
       LowAverageText, "http://example.com/low.m3u8",
       HighAverageText, "http://example.com/high.m3u8"]
  {
    TwoStreams(LowAverage(), HighAverage());
    LowAverageLine();
    HighAverageLine();
  }

  // ---- the tests, through the M3U8 object ----

  /** The first test: add the rendition and both variant streams, then `dumps()`. */
  method CreatesVariantWithTwoPlaylists() returns (text: string)
    ensures text == Render(["#EXTM3U", EnglishSubtitlesText,
                            LowPlaylistText, "http://example.com/low.m3u8",
                            HighPlaylistText, "http://example.com/high.m3u8"])
  {
    var variant := new M3U8();
    variant.AddMedia(EnglishSubtitles(), false);
    variant.AddPlaylist(LowPlaylist());
    variant.AddPlaylist(HighPlaylist());
    assert variant.State() == TwoPlaylists();
    TwoPlaylistsLines();
    text := variant.Dumps();
  }

  /** The second test, which also adds two I-frame streams. */
  method CreatesVariantWithTwoPlaylistsAndTwoIFramePlaylists() returns (text: string)
    ensures text == Render(["#EXTM3U", EnglishSubtitlesText,
                            LowVideoText, "video-800k.m3u8",
                            HighVideoText, "video-1200k.m3u8",
                            LowIFramesText, HighIFramesText])
  {
    var variant := new M3U8();
    variant.AddMedia(EnglishSubtitles(), false);
    variant.AddPlaylist(LowVideo());
    variant.AddPlaylist(HighVideo());
    variant.AddIFramePlaylist(LowIFrames());
    variant.AddIFramePlaylist(HighIFrames());
    assert variant.State() == TwoPlaylistsTwoIFrames();
    TwoPlaylistsTwoIFramesLines();
    text := variant.Dumps();
  }

  /** The third test: two variant streams with AVERAGE-BANDWIDTH and no rendition. */
  method WritesAverageBandwidth() returns (text: string)
    ensures text == Render(["#EXTM3U",
                            LowAverageText, "http://example.com/low.m3u8",
                            HighAverageText, "http://example.com/high.m3u8"])
  {
    var variant := new M3U8();
    variant.AddPlaylist(LowAverage());
    variant.AddPlaylist(HighAverage());
    assert variant.State() == AverageBandwidth();
    AverageBandwidthLines();
    text := variant.Dumps();
  }
}
