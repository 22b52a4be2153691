# A model of the m3u8 variant (master) playlist

This project models the part of the Python `m3u8` library that builds and
writes HLS master playlists. It proves properties of that model in Dafny.

- **`Media` (an `EXT-X-MEDIA` rendition)** is a value with three required
  fields: a type, a group id and a name. It also has three tri-state flags
  (`DEFAULT`, `AUTOSELECT`, `FORCED`) and optional strings. The constructor
  and every setter validate their input. On bad input they report
  `InvalidMedia` for the refused field (`media.dfy`).
- **The media collection** is keyed by (type, group id, name). Adding a
  rendition whose key is already stored keeps the first one, unless
  `replace` is set. Then the old one goes and the new one is appended.
  Removing a key that is not stored does nothing (`media_list.dfy`).
- **The `M3U8` object** is a class holding four collections: renditions,
  variant streams, I-frame variant streams and segments. Its `add_*`,
  `remove_*` and `media.pop()` methods change those collections in place
  (`aggregate.dfy`).
- **`dumps`** writes, in this order:
  - `#EXTM3U`;
  - one `#EXT-X-MEDIA` line per rendition;
  - an `#EXT-X-STREAM-INF` line and a URI line per variant stream;
  - one `#EXT-X-I-FRAME-STREAM-INF` line per I-frame stream.

  These attributes are written only when present and non-empty: optional
  strings, and `PROGRAM-ID` / `AVERAGE-BANDWIDTH`. A variant stream's
  `AUDIO`/`VIDEO`/`SUBTITLES`/`CLOSED-CAPTIONS` reference is written only
  when the stream holds a rendition of that type and group
  (`serializer.dfy`, `attribute_list.dfy`, `text.dfy`).
- **`loads`** is a line-by-line reader of that grammar, plus the cases
  listed under Left out (`parser.dfy`, `line_reads.dfy`).
- **The round trip:** loading the text `dumps` writes and dumping the result
  again gives the same text (`canonical.dfy`, `round_trip.dfy`). The loaded
  manifest is the canonical form of the one written. In that form, empty
  optional strings are absent and each variant stream holds only the
  renditions it refers to.
- **The three `dumps` tests** are restated with their own fixtures
  (`dumps_scenarios.dfy`). Each rendition and stream is proved to give the
  attribute list the test expects, in that order and with that quoting. The
  list is then written out as the very line the test expects, and the whole
  document as the expected sequence of lines.

The library's behaviour is fixed by its test suite: `tests/test_media.py`
and `tests/test_variant_m3u8.py`. The rows below cite the test lines each
member states.

## Model

| member | source | states |
|---|---|---|
| Media.NewMedia | tests/test_media.py:6-63 | The constructor fails exactly when some validated field is refused, and the error names a refused field. A missing group id, name or type is refused, and so is a DEFAULT, FORCED or AUTOSELECT other than "YES", "NO" or absent (such as 'y', '' or 'n'). On success every getter returns the argument given. |
| Media.ParseType | tests/test_media.py:39-44 | A type string is accepted iff it is one of AUDIO, VIDEO, SUBTITLES, CLOSED-CAPTIONS, and the parsed type names that string back. |
| Media.ParseTypeName | tests/test_media.py:39-44 | Every media type's name parses back to that type, so all four values construct and read back. |
| Media.ParseFlag | tests/test_media.py:55-73 | A flag is accepted iff it is absent, "YES" or "NO", and reads back as given. |
| Media.ParseFlagValue | tests/test_media.py:55-73 | Every tri-state flag's written value parses back to the same flag. |
| Media.NewMediaArgs | tests/test_media.py:12 | Any rendition is what the constructor builds from its own getters. |
| Media.Set | tests/test_media.py:11-14 | A setter re-validates with one argument changed. Only that argument can be refused, and the error names it. |
| Media.SetGroupId | tests/test_media.py:11-14 | Setting the group id succeeds iff the value is a non-empty string; setting None fails with InvalidMedia. On success only that getter changes. |
| Media.SetName | tests/test_media.py:22-25 | Setting the name succeeds iff the value is a non-empty string. On success only that getter changes. |
| Media.SetType | tests/test_media.py:33-36 | Setting the type succeeds iff the value is one of the four type names ('NONEXISTENT' is refused). On success only the type changes. |
| Media.AssignTypesInTurn | tests/test_media.py:47-52 | Assigning a list of values to the type one after another succeeds iff every value is a type name. The getter then returns the last value, and nothing else changed. |
| Media.SetDefault | tests/test_media.py:66-69 | Setting DEFAULT succeeds iff the value is absent, "YES" or "NO" ('' is refused). |
| Media.SetForced | tests/test_media.py:70-71 | Setting FORCED (also spelt `force`) succeeds iff the value is absent, "YES" or "NO" ('y' is refused). |
| Media.SetAutoselect | tests/test_media.py:72-73 | Setting AUTOSELECT succeeds iff the value is absent, "YES" or "NO" ('n' is refused). |
| MediaList.Lookup | tests/test_variant_m3u8.py:220-248 | The lookup by key finds nothing iff no stored rendition has the key. Otherwise it finds a stored rendition with that key. |
| MediaList.Add | tests/test_variant_m3u8.py:220-279 | `add(m, replace)`: afterwards m's key is stored, and m itself is when its key was new or replace is set. Every rendition with another key stays, and nothing but m and the renditions stored before is held. |
| MediaList.Remove | tests/test_variant_m3u8.py:282-326 | `remove(m)`: afterwards m's key finds nothing, and exactly the stored renditions with another key remain. |
| MediaList.RemoveKey | tests/test_variant_m3u8.py:282-308 | Removing by key keeps exactly the renditions with another key. |
| MediaList.AddUnique | tests/test_variant_m3u8.py:220-279 | Adding, with or without replace, keeps the keys unique. |
| MediaList.AddLookup | tests/test_variant_m3u8.py:220-279 | After an add, the key of the added rendition finds the old entry (without replace) or the new one (with replace, or when the key was new). Every other key finds what it found before. |
| MediaList.AddLength | tests/test_variant_m3u8.py:244-246 | Adding a rendition whose key is stored leaves the count unchanged, so two equivalent renditions leave one. A new key adds one. |
| MediaList.LookupUnique | tests/test_variant_m3u8.py:220-248 | With unique keys, the lookup of a stored rendition's key finds that rendition. |
| MediaList.RemoveLookup | tests/test_variant_m3u8.py:282-326 | Removing keeps keys unique, makes the removed key find nothing and leaves other keys alone. The count drops by one iff the key was stored, so removing an unregistered rendition changes nothing. |
| MediaList.RemoveKeyAbsent | tests/test_variant_m3u8.py:311-326 | Removing a key that is not stored returns the collection unchanged. |
| MediaList.RemoveAfterAdd | tests/test_variant_m3u8.py:282-308 | Adding a rendition under a new key, then removing any rendition with the same key, restores the collection. |
| MediaList.RemoveKeyAt | tests/test_variant_m3u8.py:251-279 | With unique keys, removing the key stored at index i drops exactly that entry and keeps the order of the others. |
| MediaList.IndexOfKey | tests/test_variant_m3u8.py:220-308 | The scan for a key returns the collection's length iff the key is absent. Otherwise it returns the index of the stored rendition with it. |
| Sequences.RemoveFirst | tests/test_variant_m3u8.py:156-217 | `list.remove`: the length drops by one iff the value occurs, and no value appears that was not there. |
| Sequences.RemoveFirstCount | tests/test_variant_m3u8.py:174-217 | Removing a value absent from a list leaves it unchanged. Otherwise one occurrence goes: the length drops by one and the multiset loses exactly that value. |
| Sequences.RemoveFirstAppended | tests/test_variant_m3u8.py:156-171 | Removing a value just appended to a list that lacked it gives the list back. |
| Sequences.RemoveFirstAt | tests/test_variant_m3u8.py:156-171 | Removing the first occurrence at index i leaves the elements before and after i. |
| Sequences.IndexOf | tests/test_variant_m3u8.py:156-217 | The scan returns the first index holding the value, or the length when there is none. |
| Aggregate.M3U8.constructor | tests/test_variant_m3u8.py:10 | A new object holds four empty collections. |
| Aggregate.M3U8.Dumps | tests/test_variant_m3u8.py:39-47 | `dumps()` writes the text of the collections held, and that text opens with the #EXTM3U line. |
| Aggregate.M3U8.AddMedia | tests/test_variant_m3u8.py:220-279 | `add_media`: the collection becomes MediaList.Add of what it was, keys stay unique, and the other collections are untouched. |
| Aggregate.M3U8.RemoveMedia | tests/test_variant_m3u8.py:282-326 | `remove_media`: the collection becomes MediaList.Remove of what it was, and the other collections are untouched. |
| Aggregate.M3U8.PopMedia | tests/test_variant_m3u8.py:247-248 | `media.pop()` returns the last rendition and the collection loses it. On an empty collection it returns nothing and changes nothing. |
| Aggregate.M3U8.AddPlaylist | tests/test_variant_m3u8.py:36-37 | `add_playlist` appends and changes nothing else. |
| Aggregate.M3U8.RemovePlaylist | tests/test_variant_m3u8.py:156-188 | `remove_playlist` removes the first equal variant stream (none if absent) and changes nothing else. |
| Aggregate.M3U8.AddIFramePlaylist | tests/test_variant_m3u8.py:100-101 | `add_iframe_playlist` appends and changes nothing else. |
| Aggregate.M3U8.RemoveIFramePlaylist | tests/test_variant_m3u8.py:191-217 | `remove_iframe_playlist` removes the first equal I-frame stream (none if absent) and changes nothing else. |
| Aggregate.M3U8.AddSegment | tests/test_variant_m3u8.py:329-335 | `add_segment` appends and changes nothing else. |
| Aggregate.M3U8.RemoveSegment | tests/test_variant_m3u8.py:338-354 | `remove_segment` removes the first equal segment (none if absent) and changes nothing else. |
| Aggregate.M3U8.Loads | tests/test_variant_m3u8.py:358 | `m3u8.loads` succeeds iff the text reads. It then returns a fresh object holding the manifest read, with unique keys. Otherwise it returns the reading error. |
| Aggregate.SubtitleMedia | tests/test_variant_m3u8.py:222-241 | The English subtitles rendition of the tests constructs, has key (SUBTITLES, subs, English) and carries the given DEFAULT and AUTOSELECT. |
| Aggregate.StoresFirstOfEquivalentMedia | tests/test_variant_m3u8.py:220-248 | Adding two equivalent renditions leaves one. The popped one has DEFAULT and AUTOSELECT "YES". |
| Aggregate.StoresSecondOfEquivalentMediaWhenReplacing | tests/test_variant_m3u8.py:251-279 | With replace=True one rendition is left. The popped one has DEFAULT and AUTOSELECT "NO". |
| Aggregate.RemovesMediaByKey | tests/test_variant_m3u8.py:282-326 | Removing a rendition that differs only in its flags empties the collection. Removing from an empty object leaves it empty. |
| Aggregate.AddsAndRemovesEntries | tests/test_variant_m3u8.py:156-354 | Adding then removing a variant stream, an I-frame stream or a segment empties its collection, and one segment is held between the two. Removing one never added leaves the collection empty. |
| Text.LinesOfRender | tests/test_variant_m3u8.py:39-47 | Text written one line per newline splits back into exactly the lines written, when no line holds a newline. |
| Text.ParseNatToString | tests/test_variant_m3u8.py:42 | A written decimal number (BANDWIDTH, PROGRAM-ID) reads back as the same number. |
| AttributeList.Encode | tests/test_variant_m3u8.py:41 | An attribute list is written from its first NAME=VALUE onward. |
| AttributeList.EncodeSnoc | tests/test_variant_m3u8.py:41 | Each further attribute follows the ones before it after a comma, so the attributes stand in list order. |
| AttributeList.Decode | tests/test_variant_m3u8.py:41 | Whatever reads as an attribute list is encodable. With DecodeEncode, reading a written list gives that list back. |
| AttributeList.DecodeEncode | tests/test_variant_m3u8.py:41 | An attribute list written with quoted and bare values decodes back to the same attributes. |
| AttributeList.ToMapGet | tests/test_variant_m3u8.py:41 | The attribute dictionary maps each name to the value of its first occurrence in the list. |
| AttributeList.GetSlot | tests/test_variant_m3u8.py:41 | In the list written from distinctly named slots, each name reads as its slot's value, or as absent when the slot was not written. |
| Serializer.MediaLine | tests/test_variant_m3u8.py:41 | A rendition's line opens with `#EXT-X-MEDIA:`, which is how `loads` recognises it. |
| Serializer.StreamInfLine | tests/test_variant_m3u8.py:42-44 | A variant stream's line opens with `#EXT-X-STREAM-INF:`. |
| Serializer.IFrameLine | tests/test_variant_m3u8.py:113-116 | An I-frame stream's line opens with `#EXT-X-I-FRAME-STREAM-INF:`. |
| Serializer.Dumps | tests/test_variant_m3u8.py:39-47 | The text of a master playlist opens with the #EXTM3U line. |
| Serializer.DocLinesLength | tests/test_variant_m3u8.py:103-118 | The text has 1 + \|media\| + 2·\|playlists\| + \|iframes\| lines, and the first is #EXTM3U. |
| Serializer.DocMediaLine | tests/test_variant_m3u8.py:104-106 | Line 1+i is the #EXT-X-MEDIA line of rendition i. |
| Serializer.DocPlaylistLine | tests/test_variant_m3u8.py:107-112 | After the renditions, each variant stream takes two lines: its #EXT-X-STREAM-INF line, then its URI. |
| Serializer.DocIFrameLine | tests/test_variant_m3u8.py:113-116 | After the variant streams, each I-frame stream takes one #EXT-X-I-FRAME-STREAM-INF line. |
| LineReads.MediaGetsUriTypeGroupLanguage | tests/test_variant_m3u8.py:41 | The #EXT-X-MEDIA attributes write URI and LANGUAGE only when non-empty, and always write TYPE and GROUP-ID. |
| LineReads.MediaGetsAssocNameDefaultAutoselect | tests/test_variant_m3u8.py:41 | They write ASSOC-LANGUAGE only if non-empty. NAME is always written, and DEFAULT and AUTOSELECT exactly as set. |
| LineReads.MediaGetsForcedInstreamCharacteristics | tests/test_variant_m3u8.py:12-20 | FORCED is written as set. INSTREAM-ID and CHARACTERISTICS are written only if non-empty, so characteristics=None writes nothing. |
| LineReads.MediaLineReads | tests/test_variant_m3u8.py:41 | A writable rendition's #EXT-X-MEDIA line reads back as its canonical form. |
| LineReads.StreamGetsProgramBandwidthAverage | tests/test_variant_m3u8.py:148 | The #EXT-X-STREAM-INF attributes always write BANDWIDTH. PROGRAM-ID and AVERAGE-BANDWIDTH are written only when given. |
| LineReads.StreamGetsResolutionCodecsAudio | tests/test_variant_m3u8.py:107-112 | RESOLUTION and CODECS are written only when non-empty. AUDIO is the emitted rendition reference. |
| LineReads.StreamGetsVideoSubtitlesCaptions | tests/test_variant_m3u8.py:42-45 | VIDEO, SUBTITLES and CLOSED-CAPTIONS are the emitted rendition references. |
| LineReads.GroupWrittenWhenBacked | tests/test_variant_m3u8.py:124-152 | A rendition reference is written iff the stream names a non-empty group and holds a rendition of that type and group, and it is then the group named. So 'subs' with media=[] writes no SUBTITLES. |
| LineReads.StreamInfLineReads | tests/test_variant_m3u8.py:64-82 | A writable variant stream's #EXT-X-STREAM-INF line reads back as its canonical attributes, pending the URI line. |
| LineReads.IFrameGets | tests/test_variant_m3u8.py:83-96 | The #EXT-X-I-FRAME-STREAM-INF attributes write PROGRAM-ID, RESOLUTION and CODECS only when given, and always write BANDWIDTH and URI. |
| LineReads.IFrameLineReads | tests/test_variant_m3u8.py:113-116 | A writable I-frame stream's line reads back as its canonical form, appended to the I-frame streams. |
| Parser.Step | tests/test_variant_m3u8.py:358 | Reading one line never gives two renditions one key. |
| Parser.ParseLines | tests/test_variant_m3u8.py:358 | Reading the lines in turn, stopping at the first error, keeps the rendition keys unique. |
| Parser.RenditionsFor | tests/test_variant_m3u8.py:23-34 | A loaded variant stream holds exactly the loaded renditions whose type and group it refers to. |
| Parser.Loads | tests/test_variant_m3u8.py:358 | A loaded manifest's renditions have unique keys. |
| DumpsScenarios.EnglishSubtitlesMade | tests/test_variant_m3u8.py:12-20 | The subtitles rendition of the tests constructs from its arguments. |
| DumpsScenarios.EnglishSubtitlesAttrs | tests/test_variant_m3u8.py:41 | Its #EXT-X-MEDIA attributes are URI, TYPE, GROUP-ID, LANGUAGE, NAME, DEFAULT, AUTOSELECT and FORCED, in that order. TYPE and the flags are bare, the rest quoted, and `characteristics=None` writes nothing. |
| DumpsScenarios.EnglishSubtitlesLine | tests/test_variant_m3u8.py:41 | Its line is exactly the #EXT-X-MEDIA line of the test. |
| DumpsScenarios.LowPlaylistAttrs | tests/test_variant_m3u8.py:42 | The low stream writes PROGRAM-ID=1, BANDWIDTH=1280000 and SUBTITLES="subs", in that order. |
| DumpsScenarios.LowPlaylistLine | tests/test_variant_m3u8.py:42 | The low stream's line is exactly the one of the test. |
| DumpsScenarios.HighPlaylistAttrs | tests/test_variant_m3u8.py:44 | The high stream writes PROGRAM-ID=1, BANDWIDTH=3000000 and SUBTITLES="subs", in that order. |
| DumpsScenarios.HighPlaylistLine | tests/test_variant_m3u8.py:44 | The high stream's line is exactly the one of the test. |
| DumpsScenarios.TwoPlaylistsLines | tests/test_variant_m3u8.py:39-46 | The document of the first test is written as #EXTM3U, the rendition line, then each stream's line followed by its URI. |
| DumpsScenarios.CreatesVariantWithTwoPlaylists | tests/test_variant_m3u8.py:9-47 | Building the object by `add_media` and two `add_playlist` calls, `dumps()` gives the expected text of the test. |
| DumpsScenarios.LowVideoAttrs | tests/test_variant_m3u8.py:107-108 | The 800k stream writes PROGRAM-ID, BANDWIDTH, bare RESOLUTION=624x352, quoted CODECS and SUBTITLES, in that order. |
| DumpsScenarios.LowVideoLine | tests/test_variant_m3u8.py:107-108 | The 800k stream's line is exactly the one of the test. |
| DumpsScenarios.HighVideoAttrs | tests/test_variant_m3u8.py:110-111 | The 1200k stream writes PROGRAM-ID, BANDWIDTH, CODECS and SUBTITLES, in that order, and no RESOLUTION. |
| DumpsScenarios.HighVideoLine | tests/test_variant_m3u8.py:110-111 | The 1200k stream's line is exactly the one of the test. |
| DumpsScenarios.LowIFramesAttrs | tests/test_variant_m3u8.py:113-114 | The 800k I-frame stream writes PROGRAM-ID, BANDWIDTH, RESOLUTION, CODECS and a quoted URI last. |
| DumpsScenarios.LowIFramesLine | tests/test_variant_m3u8.py:113-114 | The 800k I-frame line is exactly the one of the test. |
| DumpsScenarios.HighIFramesAttrs | tests/test_variant_m3u8.py:115-116 | The 1200k I-frame stream writes BANDWIDTH, CODECS and URI, with no PROGRAM-ID or RESOLUTION. |
| DumpsScenarios.HighIFramesLine | tests/test_variant_m3u8.py:115-116 | The 1200k I-frame line is exactly the one of the test. |
| DumpsScenarios.TwoPlaylistsTwoIFramesLines | tests/test_variant_m3u8.py:103-117 | The document of the second test is written as the header, the rendition line, two stream lines each followed by its URI, then the two I-frame lines. |
| DumpsScenarios.CreatesVariantWithTwoPlaylistsAndTwoIFramePlaylists | tests/test_variant_m3u8.py:50-118 | Building that object through the `add_*` calls, `dumps()` gives the expected text of the test. |
| DumpsScenarios.LowAverageAttrs | tests/test_variant_m3u8.py:148 | With media=[] the low stream writes PROGRAM-ID, BANDWIDTH and AVERAGE-BANDWIDTH=1257891, and no SUBTITLES. |
| DumpsScenarios.LowAverageLine | tests/test_variant_m3u8.py:148 | That line is exactly the one of the test. |
| DumpsScenarios.HighAverageAttrs | tests/test_variant_m3u8.py:150 | The high stream writes PROGRAM-ID, BANDWIDTH and AVERAGE-BANDWIDTH=2857123, and no SUBTITLES. |
| DumpsScenarios.HighAverageLine | tests/test_variant_m3u8.py:150 | That line is exactly the one of the test. |
| DumpsScenarios.AverageBandwidthLines | tests/test_variant_m3u8.py:146-152 | The document of the third test is the header, then each stream's line followed by its URI. |
| DumpsScenarios.WritesAverageBandwidth | tests/test_variant_m3u8.py:121-153 | Building that object by two `add_playlist` calls, `dumps()` gives the expected text of the test. |
| Canonical.DumpsCanon | tests/test_variant_m3u8.py:357-359 | When every reference names a declared rendition group, dumping a manifest and dumping its canonical form give the same text. |
| RoundTrip.DumpsLines | tests/test_variant_m3u8.py:39-47 | The lines of the text of a serializable manifest are exactly the lines written for it. |
| RoundTrip.LoadsDumps | tests/test_variant_m3u8.py:357-359 | Loading the text of a serializable manifest gives its canonical form. |
| RoundTrip.RoundTrip | tests/test_variant_m3u8.py:357-359 | Loading the text of a serializable manifest succeeds, and dumping what was loaded gives the same text. |
| RoundTrip.LoadsStable | tests/test_variant_m3u8.py:357-359 | Loading the text of the canonical form gives what loading the original text gives. |
| RoundTrip.CanonicalRoundTrip | tests/test_variant_m3u8.py:357-359 | A canonical, serializable manifest reads back as exactly itself. |

## Left out

- Sorting and ordering rules of the library beyond insertion order are not modelled. Collections keep the order of the `add_*` calls.
- The rule that INSTREAM-ID is required for CLOSED-CAPTIONS is not modelled. INSTREAM-ID is not validated, because the constructor tests accept '' for every type (tests/test_media.py:42-43).
- `base_uri` is carried but `absolute_uri` resolution is not modelled. It needs URL joining, which the model does not define.
- Segments are added and removed only. Their durations, titles and per-segment tags are not modelled. Segments are not written by `dumps`, since a master playlist holds none. `loads` turns a URI line with no pending #EXT-X-STREAM-INF before it into a segment.
- Aggregate.M3U8.PopMedia: returns nothing on an empty collection instead of raising IndexError.
- Aggregate.M3U8.RemovePlaylist: removes the first entry equal by value. Python's `list.remove` compares with `__eq__`, which for these objects is identity. Two distinct but equal objects are therefore not told apart here. The same holds for RemoveIFramePlaylist and RemoveSegment.
- `force` and `forced` are modelled as one field. Both spellings appear in tests/test_media.py:60,71 and tests/test_variant_m3u8.py:19.
- RESOLUTION is kept as the string written (`624x352`), not as a pair of numbers.
- Parser.Loads: the reader is this model's own, since the library's parser is not part of this model. It accepts the grammar `dumps` writes, plus a few other cases:
  - it skips blank lines, and lines starting with `#` that it does not recognise;
  - in an attribute list, the first occurrence of a repeated name wins;
  - it does not model the library's full tag set (segment tags, keys, the media-playlist tags).
- RoundTrip.RoundTrip: proved for every serializable manifest rather than for one concrete text. The MULTI_MEDIA_PLAYLIST fixture of the test at tests/test_variant_m3u8.py:357-359 lives in `tests/playlists.py`, which is not part of this model.
- LineReads.MediaGetsUriTypeGroupLanguage: states the values written for every rendition, not their position or quoting. Order and quoting are proved for the rendition of the tests by DumpsScenarios.EnglishSubtitlesAttrs, and follow from the fixed slot order of the serializer.
- LineReads.MediaGetsAssocNameDefaultAutoselect: states values only, as above; order and quoting are fixed by DumpsScenarios.EnglishSubtitlesAttrs for the rendition of the tests.
- LineReads.MediaGetsForcedInstreamCharacteristics: states values only; that FORCED is bare and last for the rendition of the tests is stated by DumpsScenarios.EnglishSubtitlesAttrs.
- LineReads.StreamGetsProgramBandwidthAverage: states values only; the order PROGRAM-ID, BANDWIDTH, AVERAGE-BANDWIDTH and their bare form are stated for the streams of the tests by DumpsScenarios.LowAverageAttrs and HighAverageAttrs.
- LineReads.StreamGetsResolutionCodecsAudio: states values only; the order and quoting of RESOLUTION and CODECS are stated for the streams of the tests by DumpsScenarios.LowVideoAttrs and HighVideoAttrs.
- LineReads.StreamGetsVideoSubtitlesCaptions: states values only; that SUBTITLES="subs" is quoted and last is stated for the streams of the tests by DumpsScenarios.LowPlaylistAttrs and HighPlaylistAttrs.
- LineReads.IFrameGets: states values only; the order PROGRAM-ID … URI and its quoting are stated for the I-frame streams of the tests by DumpsScenarios.LowIFramesAttrs and HighIFramesAttrs.
- The expected texts of the `dumps` tests are proved line by line and as a sequence of lines (DumpsScenarios). The one step from that sequence to a single string literal is not taken, because the text is long: the scenario methods state the result as `Render` of the expected lines.
- File and network I/O (`m3u8.load` of a path or URL, `dump` to a file) are left out.
