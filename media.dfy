/**
 * One alternative rendition of a master playlist (an EXT-X-MEDIA entry): a
 * value with three required fields, three tri-state flags and optional
 * strings. Construction and every setter validate; a setter that fails
 * reports InvalidMedia and the caller keeps the old value.
 */
module Media {
  import opened Wrappers

  type NonEmptyString = s: string | |s| > 0 witness "?"

  datatype MediaType = Audio | Video | Subtitles | ClosedCaptions

  /** The enumerated string of a media type, as TYPE carries it. */
  function TypeName(t: MediaType): string
  {
    match t
    case Audio => "AUDIO"
    case Video => "VIDEO"
    case Subtitles => "SUBTITLES"
    case ClosedCaptions => "CLOSED-CAPTIONS"
  }

  /** The media type a string names; only the four enumerated strings name one. */
  function ParseType(s: string): (r: Option<MediaType>)
    ensures r.Some? <==> s == "AUDIO" || s == "VIDEO" || s == "SUBTITLES" || s == "CLOSED-CAPTIONS"
    ensures r.Some? ==> TypeName(r.value) == s
  {
    if s == "AUDIO" then Some(Audio)
    else if s == "VIDEO" then Some(Video)
    else if s == "SUBTITLES" then Some(Subtitles)
    else if s == "CLOSED-CAPTIONS" then Some(ClosedCaptions)
    else None
  }

  lemma ParseTypeName(t: MediaType)
    ensures ParseType(TypeName(t)) == Some(t)
  {
  }

  /** DEFAULT, AUTOSELECT and FORCED: "YES", "NO" or absent. */
  datatype TriState = Unset | Yes | No

  /** The value the attribute getter returns. */
  function FlagValue(f: TriState): Option<string>
  {
    match f
    case Unset => None
    case Yes => Some("YES")
    case No => Some("NO")
  }

  /** Reads a flag; anything but "YES", "NO" or absence is refused, "" and lower case included. */
  function ParseFlag(v: Option<string>): (r: Option<TriState>)
    ensures r.Some? <==> v == None || v == Some("YES") || v == Some("NO")
    ensures r.Some? ==> FlagValue(r.value) == v
  {
    match v
    case None => Some(Unset)
    case Some(s) => if s == "YES" then Some(Yes) else if s == "NO" then Some(No) else None
  }

  lemma ParseFlagValue(f: TriState)
    ensures ParseFlag(FlagValue(f)) == Some(f)
  {
  }

  datatype Media = Media(
    uri: Option<string>,
    mediaType: MediaType,
    groupId: NonEmptyString,
    language: Option<string>,
    assocLanguage: Option<string>,
    name: NonEmptyString,
    default: TriState,
    autoselect: TriState,
    forced: TriState,
    characteristics: Option<string>,
    instreamId: Option<string>)

  /** Identity of a rendition: two media with the same key are the same entry. */
  datatype MediaKey = MediaKey(mediaType: MediaType, groupId: string, name: string)

  function Key(m: Media): MediaKey
  {
    MediaKey(m.mediaType, m.groupId, m.name)
  }

  /** The keyword arguments of the constructor, each possibly absent. */
  datatype MediaArgs = MediaArgs(
    uri: Option<string>,
    mediaType: Option<string>,
    groupId: Option<string>,
    language: Option<string>,
    assocLanguage: Option<string>,
    name: Option<string>,
    default: Option<string>,
    autoselect: Option<string>,
    forced: Option<string>,
    characteristics: Option<string>,
    instreamId: Option<string>)

  /** The fields that validation can refuse. */
  datatype Field = TypeField | GroupIdField | NameField | DefaultField | AutoselectField | ForcedField

  datatype InvalidMedia = InvalidMedia(field: Field)

  predicate Required(v: Option<string>)
  {
    v.Some? && |v.value| > 0
  }

  /** Whether the argument for `f` passes validation. */
  predicate ArgValid(args: MediaArgs, f: Field)
  {
    match f
    case TypeField => args.mediaType.Some? && ParseType(args.mediaType.value).Some?
    case GroupIdField => Required(args.groupId)
    case NameField => Required(args.name)
    case DefaultField => ParseFlag(args.default).Some?
    case AutoselectField => ParseFlag(args.autoselect).Some?
    case ForcedField => ParseFlag(args.forced).Some?
  }

  /** What the getters of `m` return: the arguments that construct it. */
  function Args(m: Media): MediaArgs
  {
    MediaArgs(m.uri, Some(TypeName(m.mediaType)), Some(m.groupId), m.language, m.assocLanguage,
              Some(m.name), FlagValue(m.default), FlagValue(m.autoselect), FlagValue(m.forced),
              m.characteristics, m.instreamId)
  }

  lemma AllFieldsValid(args: MediaArgs)
    requires ArgValid(args, TypeField) && ArgValid(args, GroupIdField) && ArgValid(args, NameField)
    requires ArgValid(args, DefaultField) && ArgValid(args, AutoselectField) && ArgValid(args, ForcedField)
    ensures forall f :: ArgValid(args, f)
  {
    forall f ensures ArgValid(args, f) {
      match f
      case TypeField =>
      case GroupIdField =>
      case NameField =>
      case DefaultField =>
      case AutoselectField =>
      case ForcedField =>
    }
  }

  /**
   * The validating constructor. It fails exactly when some validated field is
   * refused, names a refused field when it fails, and otherwise every getter
   * returns what was passed.
   */
  function NewMedia(args: MediaArgs): (r: Result<Media, InvalidMedia>)
    ensures r.Success? <==> forall f :: ArgValid(args, f)
    ensures r.Failure? ==> !ArgValid(args, r.error.field)
    ensures r.Success? ==> Args(r.value) == args
  {
    if !ArgValid(args, TypeField) then Failure(InvalidMedia(TypeField))
    else if !ArgValid(args, GroupIdField) then Failure(InvalidMedia(GroupIdField))
    else if !ArgValid(args, NameField) then Failure(InvalidMedia(NameField))
    else if !ArgValid(args, DefaultField) then Failure(InvalidMedia(DefaultField))
    else if !ArgValid(args, AutoselectField) then Failure(InvalidMedia(AutoselectField))
    else if !ArgValid(args, ForcedField) then Failure(InvalidMedia(ForcedField))
    else
      AllFieldsValid(args);
      Success(Media(args.uri, ParseType(args.mediaType.value).value, args.groupId.value,
                    args.language, args.assocLanguage, args.name.value,
                    ParseFlag(args.default).value, ParseFlag(args.autoselect).value,
                    ParseFlag(args.forced).value, args.characteristics, args.instreamId))
  }

  /** Every media value is what the constructor builds from its own getters. */
  lemma NewMediaArgs(m: Media)
    ensures NewMedia(Args(m)) == Success(m)
  {
    var args := Args(m);
    AllFieldsValid(args);
    var r := NewMedia(args);
    assert Args(r.value) == args;
  }

  /** A setter: re-validate the arguments after `f` was changed; only `f` can be refused. */
  function Set(args: MediaArgs, f: Field): (r: Result<Media, InvalidMedia>)
    requires forall g :: g != f ==> ArgValid(args, g)
    ensures r.Success? <==> ArgValid(args, f)
    ensures r.Success? ==> Args(r.value) == args
    ensures r.Failure? ==> r.error == InvalidMedia(f)
  {
    NewMedia(args)
  }

  /** `media.type = v`: accepted exactly for the four type names; the getter then returns `v`. */
  function SetType(m: Media, v: Option<string>): (r: Result<Media, InvalidMedia>)
    ensures r.Success? <==> v.Some? && ParseType(v.value).Some?
    ensures r.Success? ==> Args(r.value) == Args(m).(mediaType := v)
    ensures r.Failure? ==> r.error == InvalidMedia(TypeField)
  {
    NewMediaArgs(m);
    Set(Args(m).(mediaType := v), TypeField)
  }

  /** `media.group_id = v`: accepted exactly for a non-empty string. */
  function SetGroupId(m: Media, v: Option<string>): (r: Result<Media, InvalidMedia>)
    ensures r.Success? <==> Required(v)
    ensures r.Success? ==> Args(r.value) == Args(m).(groupId := v)
    ensures r.Failure? ==> r.error == InvalidMedia(GroupIdField)
  {
    NewMediaArgs(m);
    Set(Args(m).(groupId := v), GroupIdField)
  }

  /** `media.name = v`: accepted exactly for a non-empty string. */
  function SetName(m: Media, v: Option<string>): (r: Result<Media, InvalidMedia>)
    ensures r.Success? <==> Required(v)
    ensures r.Success? ==> Args(r.value) == Args(m).(name := v)
    ensures r.Failure? ==> r.error == InvalidMedia(NameField)
  {
    NewMediaArgs(m);
    Set(Args(m).(name := v), NameField)
  }

  /** `media.default = v`: accepted exactly for "YES", "NO" and absence. */
  function SetDefault(m: Media, v: Option<string>): (r: Result<Media, InvalidMedia>)
    ensures r.Success? <==> v == None || v == Some("YES") || v == Some("NO")
    ensures r.Success? ==> Args(r.value) == Args(m).(default := v)
    ensures r.Failure? ==> r.error == InvalidMedia(DefaultField)
  {
    NewMediaArgs(m);
    Set(Args(m).(default := v), DefaultField)
  }

  /** `media.autoselect = v`: accepted exactly for "YES", "NO" and absence. */
  function SetAutoselect(m: Media, v: Option<string>): (r: Result<Media, InvalidMedia>)
    ensures r.Success? <==> v == None || v == Some("YES") || v == Some("NO")
    ensures r.Success? ==> Args(r.value) == Args(m).(autoselect := v)
    ensures r.Failure? ==> r.error == InvalidMedia(AutoselectField)
  {
    NewMediaArgs(m);
    Set(Args(m).(autoselect := v), AutoselectField)
  }

  /** `media.forced = v` (also spelt `media.force`): accepted exactly for "YES", "NO" and absence. */
  function SetForced(m: Media, v: Option<string>): (r: Result<Media, InvalidMedia>)
    ensures r.Success? <==> v == None || v == Some("YES") || v == Some("NO")
    ensures r.Success? ==> Args(r.value) == Args(m).(forced := v)
    ensures r.Failure? ==> r.error == InvalidMedia(ForcedField)
  {
    NewMediaArgs(m);
    Set(Args(m).(forced := v), ForcedField)
  }

  /**
   * Assigns each value of `values` to the type of `m` in turn, stopping at the
   * first refused one. It succeeds exactly when every value is a type name, and
   * then the getter returns the last one and nothing else has changed.
   */
  method AssignTypesInTurn(m: Media, values: seq<string>) returns (r: Result<Media, InvalidMedia>)
    ensures r.Success? <==> forall k :: 0 <= k < |values| ==> ParseType(values[k]).Some?
    ensures r.Success? ==>
              Args(r.value) == if |values| == 0 then Args(m) else Args(m).(mediaType := Some(values[|values| - 1]))
    ensures r.Failure? ==> r.error == InvalidMedia(TypeField)
  {
    r := Success(m);
    var i := 0;
    while i < |values| && r.Success?
      invariant 0 <= i <= |values|
      invariant r.Success? ==> forall k :: 0 <= k < i ==> ParseType(values[k]).Some?
      invariant r.Success? ==> Args(r.value) == if i == 0 then Args(m) else Args(m).(mediaType := Some(values[i - 1]))
      invariant r.Failure? ==> 0 < i && ParseType(values[i - 1]).None? && r.error == InvalidMedia(TypeField)
    {
      r := SetType(r.value, Some(values[i]));
      i := i + 1;
    }
  }
}
