/**
 * The M3U8 object: four collections that `add_*`, `remove_*` and
 * `media.pop()` change in place, and `dumps`/`loads` between the object and
 * the text of a master playlist.
 */
module Aggregate {
  import opened Wrappers
  import opened Media
  import opened Entities
  import MediaList
  import opened Sequences
  import Serializer
  import Text
  import Parser

  class M3U8 {
    var media: seq<Media>
    var playlists: seq<Playlist>
    var iframePlaylists: seq<IFramePlaylist>
    var segments: seq<Segment>

    /** The media collection never holds two renditions with one key. */
    predicate Valid()
      reads this
    {
      MediaList.UniqueKeys(media)
    }

    /** The four collections, as a value. */
    function State(): Manifest
      reads this
    {
      Manifest(media, playlists, iframePlaylists, segments)
    }

    /** `dumps()`: the text of the master playlist held, opening with its `#EXTM3U` line. */
    function Dumps(): (r: string)
      reads this
      ensures Text.StartsWith(r, Serializer.Header + "\n")
    {
      Serializer.Dumps(State())
    }

    /** `M3U8()`: an empty playlist. */
    constructor ()
      ensures Valid()
      ensures State() == Manifest([], [], [], [])
    {
      media, playlists, iframePlaylists, segments := [], [], [], [];
    }

    /** An object holding the collections of `doc`. */
    constructor Of(doc: Manifest)
      requires MediaList.UniqueKeys(doc.media)
      ensures Valid()
      ensures State() == doc
    {
      media, playlists, iframePlaylists, segments := doc.media, doc.playlists, doc.iframePlaylists, doc.segments;
    }

    /** `m3u8.loads(text)`: a new object holding what the text reads as, or the reason it does not read. */
    static method Loads(text: string) returns (r: Result<M3U8, Parser.ParseError>)
      ensures r.Success? <==> Parser.Loads(text).Success?
      ensures r.Success? ==> fresh(r.value) && r.value.Valid() && r.value.State() == Parser.Loads(text).value
      ensures r.Failure? ==> r.error == Parser.Loads(text).error
    {
      var parsed := Parser.Loads(text);
      if parsed.Failure? {
        r := Failure(parsed.error);
      } else {
        var obj := new M3U8.Of(parsed.value);
        r := Success(obj);
      }
    }

    /** `add_media(m, replace)`: the collection becomes `MediaList.Add` of what it was. */
    method AddMedia(m: Media, replace: bool)
      requires Valid()
      modifies this
      ensures Valid()
      ensures media == MediaList.Add(old(media), m, replace)
      ensures playlists == old(playlists) && iframePlaylists == old(iframePlaylists) && segments == old(segments)
    {
      MediaList.AddUnique(media, m, replace);
      var i := MediaList.IndexOfKey(media, Key(m));
      if i == |media| {
        media := media + [m];
      } else if replace {
        MediaList.RemoveKeyAt(media, Key(m), i);
        media := media[..i] + media[i + 1..] + [m];
      }
    }

    /** `remove_media(m)`: removes the stored rendition with `m`'s key; nothing happens when there is none. */
    method RemoveMedia(m: Media)
      requires Valid()
      modifies this
      ensures Valid()
      ensures media == MediaList.Remove(old(media), m)
      ensures playlists == old(playlists) && iframePlaylists == old(iframePlaylists) && segments == old(segments)
    {
      MediaList.RemoveKeyUnique(media, Key(m));
      var i := MediaList.IndexOfKey(media, Key(m));
      if i < |media| {
        MediaList.RemoveKeyAt(media, Key(m), i);
        media := media[..i] + media[i + 1..];
      } else {
        MediaList.RemoveKeyAbsent(media, Key(m));
      }
    }

    /** `media.pop()`: takes off the last rendition; on an empty collection there is none to give. */
    method PopMedia() returns (r: Option<Media>)
      requires Valid()
      modifies this
      ensures Valid()
      ensures |old(media)| == 0 ==> r == None && media == old(media)
      ensures |old(media)| > 0 ==> r == Some(old(media)[|old(media)| - 1]) && media == old(media)[..|old(media)| - 1]
      ensures playlists == old(playlists) && iframePlaylists == old(iframePlaylists) && segments == old(segments)
    {
      if |media| == 0 {
        r := None;
      } else {
        var last := |media| - 1;
        r := Some(media[last]);
        assert forall i :: 0 <= i < last ==> media[..last][i] == media[i];
        media := media[..last];
      }
    }

    /** `add_playlist(p)`: appends. */
    method AddPlaylist(p: Playlist)
      modifies this
      ensures playlists == old(playlists) + [p]
      ensures media == old(media) && iframePlaylists == old(iframePlaylists) && segments == old(segments)
    {
      playlists := playlists + [p];
    }

    /** `remove_playlist(p)`: removes the first equal entry; nothing happens when there is none. */
    method RemovePlaylist(p: Playlist)
      modifies this
      ensures playlists == RemoveFirst(old(playlists), p)
      ensures media == old(media) && iframePlaylists == old(iframePlaylists) && segments == old(segments)
    {
      var i := IndexOf(playlists, p);
      if i < |playlists| {
        RemoveFirstAt(playlists, p, i);
        playlists := playlists[..i] + playlists[i + 1..];
      } else {
        assert playlists[..i] == playlists;
        RemoveFirstCount(playlists, p);
      }
    }

    /** `add_iframe_playlist(f)`: appends. */
    method AddIFramePlaylist(f: IFramePlaylist)
      modifies this
      ensures iframePlaylists == old(iframePlaylists) + [f]
      ensures media == old(media) && playlists == old(playlists) && segments == old(segments)
    {
      iframePlaylists := iframePlaylists + [f];
    }

    /** `remove_iframe_playlist(f)`: removes the first equal entry; nothing happens when there is none. */
    method RemoveIFramePlaylist(f: IFramePlaylist)
      modifies this
      ensures iframePlaylists == RemoveFirst(old(iframePlaylists), f)
      ensures media == old(media) && playlists == old(playlists) && segments == old(segments)
    {
      var i := IndexOf(iframePlaylists, f);
      if i < |iframePlaylists| {
        RemoveFirstAt(iframePlaylists, f, i);
        iframePlaylists := iframePlaylists[..i] + iframePlaylists[i + 1..];
      } else {
        assert iframePlaylists[..i] == iframePlaylists;
        RemoveFirstCount(iframePlaylists, f);
      }
    }

    /** `add_segment(s)`: appends. */
    method AddSegment(s: Segment)
      modifies this
      ensures segments == old(segments) + [s]
      ensures media == old(media) && playlists == old(playlists) && iframePlaylists == old(iframePlaylists)
    {
      segments := segments + [s];
    }

    /** `remove_segment(s)`: removes the first equal entry; nothing happens when there is none. */
    method RemoveSegment(s: Segment)
      modifies this
      ensures segments == RemoveFirst(old(segments), s)
      ensures media == old(media) && playlists == old(playlists) && iframePlaylists == old(iframePlaylists)
    {
      var i := IndexOf(segments, s);
      if i < |segments| {
        RemoveFirstAt(segments, s, i);
        segments := segments[..i] + segments[i + 1..];
      } else {
        assert segments[..i] == segments;
        RemoveFirstCount(segments, s);
      }
    }
  }

  // ---- the collection scenarios of the test suite ----

  /** The English subtitles rendition of the tests, with `flag` for DEFAULT and AUTOSELECT. */
  function SubtitleArgs(flag: string): MediaArgs
  {
    MediaArgs(Some("english_sub.m3u8"), Some("SUBTITLES"), Some("subs"), Some("en"), None, Some("English"),
              Some(flag), Some(flag), Some("NO"), None, None)
  }

  function SubtitleMedia(flag: string): (m: Media)
    requires flag == "YES" || flag == "NO"
    ensures NewMedia(SubtitleArgs(flag)) == Success(m)
    ensures Key(m) == MediaKey(Subtitles, "subs", "English")
    ensures FlagValue(m.default) == Some(flag) && FlagValue(m.autoselect) == Some(flag)
  {
    AllFieldsValid(SubtitleArgs(flag));
    var m := NewMedia(SubtitleArgs(flag)).value;
    assert TypeName(m.mediaType) == "SUBTITLES";
    m
  }

  /** Two equivalent renditions added in turn: the first one stays. */
  method StoresFirstOfEquivalentMedia() returns (count: nat, popped: Option<Media>)
    ensures count == 1
    ensures popped.Some? && FlagValue(popped.value.default) == Some("YES") && FlagValue(popped.value.autoselect) == Some("YES")
  {
    var variant := new M3U8();
    var defaultSubs := SubtitleMedia("YES");
    var nonDefaultSubs := SubtitleMedia("NO");
    variant.AddMedia(defaultSubs, false);
    variant.AddMedia(nonDefaultSubs, false);
    count := |variant.media|;
    popped := variant.PopMedia();
  }

  /** With `replace` the second of two equivalent renditions is kept. */
  method StoresSecondOfEquivalentMediaWhenReplacing() returns (count: nat, popped: Option<Media>)
    ensures count == 1
    ensures popped.Some? && FlagValue(popped.value.default) == Some("NO") && FlagValue(popped.value.autoselect) == Some("NO")
  {
    var variant := new M3U8();
    var defaultSubs := SubtitleMedia("YES");
    var nonDefaultSubs := SubtitleMedia("NO");
    variant.AddMedia(defaultSubs, false);
    assert variant.media == [defaultSubs];
    variant.AddMedia(nonDefaultSubs, true);
    assert variant.media == MediaList.RemoveKey([defaultSubs], Key(defaultSubs)) + [nonDefaultSubs];
    assert variant.media == [nonDefaultSubs];
    count := |variant.media|;
    popped := variant.PopMedia();
  }

  /** Removing an equivalent rendition removes the stored one; removing from an empty collection does nothing. */
  method RemovesMediaByKey() returns (afterRemove: nat, afterUnregistered: nat)
    ensures afterRemove == 0 && afterUnregistered == 0
  {
    var variant := new M3U8();
    var subs1 := SubtitleMedia("YES");
    var subs2 := SubtitleMedia("NO");
    variant.AddMedia(subs1, false);
    variant.RemoveMedia(subs2);
    afterRemove := |variant.media|;
    var other := new M3U8();
    other.RemoveMedia(subs1);
    afterUnregistered := |other.media|;
  }

  /** Adding then removing a variant, an I-frame stream or a segment empties its collection; removing one never added does nothing. */
  method AddsAndRemovesEntries(p: Playlist, f: IFramePlaylist, s: Segment)
    returns (playlists: nat, unregisteredPlaylists: nat, iframes: nat, unregisteredIFrames: nat,
             segmentsAfterAdd: nat, segments: nat, unregisteredSegments: nat)
    ensures playlists == 0 && unregisteredPlaylists == 0
    ensures iframes == 0 && unregisteredIFrames == 0
    ensures segmentsAfterAdd == 1 && segments == 0 && unregisteredSegments == 0
  {
    var variant := new M3U8();
    variant.AddPlaylist(p);
    variant.RemovePlaylist(p);
    playlists := |variant.playlists|;
    variant.AddIFramePlaylist(f);
    variant.RemoveIFramePlaylist(f);
    iframes := |variant.iframePlaylists|;
    variant.AddSegment(s);
    segmentsAfterAdd := |variant.segments|;
    variant.RemoveSegment(s);
    segments := |variant.segments|;
    var empty := new M3U8();
    empty.RemovePlaylist(p);
    empty.RemoveIFramePlaylist(f);
    empty.RemoveSegment(s);
    unregisteredPlaylists, unregisteredIFrames, unregisteredSegments := |empty.playlists|, |empty.iframePlaylists|, |empty.segments|;
  }
}
