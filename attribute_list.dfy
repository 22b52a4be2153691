/**
 * The attribute lists of HLS tags (section 4.2 of RFC 8216): comma-separated
 * NAME=VALUE pairs where a value is either a double-quoted string, inside which
 * commas are literal, or a bare token (a decimal integer, an enumerated string,
 * a resolution).
 */
module AttributeList {
  import opened Wrappers
  import opened Text

  datatype AttrValue = Quoted(text: string) | Bare(text: string)

  datatype Attr = Attr(name: string, value: AttrValue)

  /** Why an attribute list could not be read. */
  datatype AttrError =
    | MissingEquals        // a token without '='
    | UnterminatedQuote    // an opening '"' without its closing one
    | TextAfterQuote       // something other than ',' right after a closing '"'

  /**
   * An attribute whose text reads back unambiguously: the name holds no '=',
   * a quoted value no '"', a bare value no ',' and no leading '"'.
   */
  predicate Encodable(a: Attr)
  {
    && '=' !in a.name
    && match a.value
       case Quoted(t) => '"' !in t
       case Bare(t) => ',' !in t && (|t| == 0 || t[0] != '"')
  }

  predicate AllEncodable(attrs: seq<Attr>)
  {
    forall k :: 0 <= k < |attrs| ==> Encodable(attrs[k])
  }

  function ValueText(v: AttrValue): string
  {
    match v
    case Quoted(t) => "\"" + t + "\""
    case Bare(t) => t
  }

  function AttrText(a: Attr): string
  {
    a.name + "=" + ValueText(a.value)
  }

  /** The attributes, in the given order, joined by commas: the text opens with the first one. */
  function Encode(attrs: seq<Attr>): (r: string)
    ensures |attrs| > 0 ==> StartsWith(r, AttrText(attrs[0]))
  {
    if |attrs| == 0 then ""
    else if |attrs| == 1 then
      assert AttrText(attrs[0]) == AttrText(attrs[0]) + "";
      StartsWithConcat(AttrText(attrs[0]), "");
      AttrText(attrs[0])
    else
      var first, rest := AttrText(attrs[0]), Encode(attrs[1..]);
      StartsWithConcat(first, "," + rest);
      assert first + "," + rest == first + ("," + rest);
      AttrText(attrs[0]) + "," + Encode(attrs[1..])
  }

  /** Appending an attribute appends a comma and its text: the list is written left to right. */
  lemma {:induction false} EncodeSnoc(attrs: seq<Attr>, a: Attr)
    requires |attrs| > 0
    ensures Encode(attrs + [a]) == Encode(attrs) + "," + AttrText(a)
    decreases |attrs|
  {
    if |attrs| == 1 {
      assert (attrs + [a])[1..] == [a];
    } else {
      assert (attrs + [a])[1..] == attrs[1..] + [a];
      EncodeSnoc(attrs[1..], a);
      assert attrs[0] == (attrs + [a])[0];
    }
  }

  /**
   * Reads an attribute list. Commas inside a quoted value do not split; each
   * token is split at its first '='; quotes are removed from quoted values.
   * Whatever it reads is encodable.
   */
  function Decode(s: string): (r: Result<seq<Attr>, AttrError>)
    ensures r.Success? ==> AllEncodable(r.value)
    decreases |s|
  {
    if |s| == 0 then Success([])
    else
      match ReadAttr(s)
      case Failure(e) => Failure(e)
      case Success((a, more)) =>
        if |more| == 0 then Success([a])
        else if more[0] != ',' then Failure(TextAfterQuote)
        else Prepend(a, Decode(more[1..]))
  }

  function Prepend(a: Attr, r: Result<seq<Attr>, AttrError>): (r': Result<seq<Attr>, AttrError>)
    ensures r'.Success? <==> r.Success?
    ensures r.Success? ==> r'.value == [a] + r.value
  {
    match r
    case Success(attrs) => Success([a] + attrs)
    case Failure(e) => Failure(e)
  }

  /** Reads the first NAME=VALUE of `s`: the attribute and the text after it. */
  function ReadAttr(s: string): (r: Result<(Attr, string), AttrError>)
    requires |s| > 0
    ensures r.Success? ==> Encodable(r.value.0) && |r.value.1| < |s|
  {
    var eq := Find(s, '=');
    if eq == |s| then Failure(MissingEquals)
    else
      var name := s[..eq];
      assert forall j :: 0 <= j < |name| ==> name[j] != '=';
      match ReadValue(s[eq + 1..])
      case Failure(e) => Failure(e)
      case Success((v, more)) => Success((Attr(name, v), more))
  }

  /** Reads a value: quoted up to its closing '"', or bare up to the next ','. */
  function ReadValue(rest: string): (r: Result<(AttrValue, string), AttrError>)
    ensures r.Success? ==> Encodable(Attr("", r.value.0)) && |r.value.1| <= |rest|
  {
    if |rest| > 0 && rest[0] == '"' then
      var body := rest[1..];
      var close := Find(body, '"');
      if close == |body| then Failure(UnterminatedQuote)
      else
        var text := body[..close];
        assert forall j :: 0 <= j < |text| ==> text[j] != '"';
        Success((Quoted(text), body[close + 1..]))
    else
      var comma := Find(rest, ',');
      var text := rest[..comma];
      assert forall j :: 0 <= j < |text| ==> text[j] != ',';
      Success((Bare(text), rest[comma..]))
  }

  /** Decoding an encoded list of encodable attributes gives the list back. */
  lemma {:induction false} DecodeEncode(attrs: seq<Attr>)
    requires AllEncodable(attrs)
    ensures Decode(Encode(attrs)) == Success(attrs)
  {
    if |attrs| == 1 {
      DecodeFront(attrs[0], "");
      assert AttrText(attrs[0]) + "" == Encode(attrs);
      assert attrs == [attrs[0]];
    } else if |attrs| > 1 {
      var rest := attrs[1..];
      DecodeCons(attrs);
      assert AllEncodable(rest);
      DecodeEncode(rest);
      assert attrs == [attrs[0]] + rest;
    }
  }

  /** Decoding a list of two or more attributes reads the first, then the rest after the comma. */
  lemma DecodeCons(attrs: seq<Attr>)
    requires |attrs| > 1 && Encodable(attrs[0])
    ensures Decode(Encode(attrs)) == Prepend(attrs[0], Decode(Encode(attrs[1..])))
  {
    var tail := "," + Encode(attrs[1..]);
    DecodeFront(attrs[0], tail);
    assert AttrText(attrs[0]) + tail == Encode(attrs);
    assert tail[1..] == Encode(attrs[1..]);
  }

  lemma DecodeFront(a: Attr, tail: string)
    requires Encodable(a)
    requires tail == "" || tail[0] == ','
    ensures Decode(AttrText(a) + tail) ==
              if tail == "" then Success([a]) else Prepend(a, Decode(tail[1..]))
  {
    ReadAttrText(a, tail);
  }

  /** One attribute is read off the front of the text, up to the comma that follows it. */
  lemma ReadAttrText(a: Attr, tail: string)
    requires Encodable(a)
    requires tail == "" || tail[0] == ','
    ensures ReadAttr(AttrText(a) + tail) == Success((a, tail))
  {
    var vt := ValueText(a.value);
    var s := AttrText(a) + tail;
    assert s == a.name + ("=" + vt + tail);
    FindAfter(a.name, "=" + vt + tail, '=');
    assert s[..|a.name|] == a.name;
    assert s[|a.name| + 1..] == vt + tail;
    ReadValueText(a.value, tail);
  }

  lemma ReadValueText(v: AttrValue, tail: string)
    requires Encodable(Attr("", v))
    requires tail == "" || tail[0] == ','
    ensures ReadValue(ValueText(v) + tail) == Success((v, tail))
  {
    match v
    case Quoted(t) => ReadQuotedText(t, tail);
    case Bare(t) => ReadBareText(t, tail);
  }

  /** A quoted value is read up to its closing '"'. */
  lemma ReadQuotedText(t: string, tail: string)
    requires '"' !in t
    ensures ReadValue(ValueText(Quoted(t)) + tail) == Success((Quoted(t), tail))
  {
    var rest := ValueText(Quoted(t)) + tail;
    var body := rest[1..];
    assert body == t + ("\"" + tail);
    FindAfter(t, "\"" + tail, '"');
    assert body[..|t|] == t;
    assert body[|t| + 1..] == tail;
  }

  /** A bare value is read up to the comma that follows it, or to the end. */
  lemma ReadBareText(t: string, tail: string)
    requires ',' !in t && (|t| == 0 || t[0] != '"')
    requires tail == "" || tail[0] == ','
    ensures ReadValue(ValueText(Bare(t)) + tail) == Success((Bare(t), tail))
  {
    var rest := ValueText(Bare(t)) + tail;
    assert |rest| > 0 ==> rest[0] != '"';
    if tail == "" {
      FindAbsent(t, ',');
      assert rest == t;
    } else {
      FindAfter(t, tail, ',');
      assert rest[..|t|] == t;
      assert rest[|t|..] == tail;
    }
  }

  /** A character that is neither '=', ',' nor '"' appears in the text only if some name or value holds it. */
  lemma {:induction false} EncodeAvoids(attrs: seq<Attr>, c: char)
    requires c != '=' && c != ',' && c != '"'
    requires forall k :: 0 <= k < |attrs| ==> c !in attrs[k].name && c !in attrs[k].value.text
    ensures c !in Encode(attrs)
  {
    if |attrs| > 0 {
      var a := attrs[0];
      assert c !in ValueText(a.value);
      assert c !in AttrText(a);
      if |attrs| > 1 {
        EncodeAvoids(attrs[1..], c);
      }
    }
  }

  /** The text of the first attribute called `name`, quoted or bare. */
  function Get(attrs: seq<Attr>, name: string): (r: Option<string>)
    ensures r.None? <==> forall k :: 0 <= k < |attrs| ==> attrs[k].name != name
    ensures r.Some? ==> exists k :: 0 <= k < |attrs| && attrs[k].name == name && attrs[k].value.text == r.value
  {
    if |attrs| == 0 then None
    else if attrs[0].name == name then Some(attrs[0].value.text)
    else Get(attrs[1..], name)
  }

  /** An attribute list as a dictionary from names to value texts; the first of a repeated name wins. */
  type AttrMap = map<string, string>

  function ToMap(attrs: seq<Attr>): AttrMap
  {
    if |attrs| == 0 then map[] else ToMap(attrs[1..])[attrs[0].name := attrs[0].value.text]
  }

  function ValueOf(mp: AttrMap, name: string): Option<string>
  {
    if name in mp then Some(mp[name]) else None
  }

  /** Looking a name up in the dictionary is looking it up in the list. */
  lemma {:induction false} ToMapGet(attrs: seq<Attr>)
    ensures forall n :: ValueOf(ToMap(attrs), n) == Get(attrs, n)
  {
    if |attrs| > 0 {
      ToMapGet(attrs[1..]);
    }
  }

  // ---- fixed-order attribute lists --------------------------------------

  /** One position of a tag's fixed attribute order, with its value when it has one. */
  datatype Slot = Slot(name: string, value: Option<AttrValue>)

  /** The attributes that have a value, in slot order: absent ones are left out. */
  function Present(slots: seq<Slot>): seq<Attr>
  {
    PresentFrom(slots, 0)
  }

  /** The attributes written by the slots from index `i` on. */
  function PresentFrom(slots: seq<Slot>, i: nat): seq<Attr>
    decreases |slots| - i
  {
    if i >= |slots| then []
    else
      match slots[i].value
      case None => PresentFrom(slots, i + 1)
      case Some(v) => [Attr(slots[i].name, v)] + PresentFrom(slots, i + 1)
  }

  predicate DistinctNames(slots: seq<Slot>)
  {
    forall i, j :: 0 <= i < j < |slots| ==> slots[i].name != slots[j].name
  }

  /** A name that no slot from `i` on carries is absent from what those slots write. */
  lemma {:induction false} GetPresentAbsent(slots: seq<Slot>, i: nat, n: string)
    requires forall j :: i <= j < |slots| ==> slots[j].name != n
    ensures Get(PresentFrom(slots, i), n) == None
    decreases |slots| - i
  {
    if i < |slots| {
      GetPresentAbsent(slots, i + 1, n);
    }
  }

  /** The text a slot writes, if it writes one. */
  function SlotText(s: Slot): Option<string>
  {
    if s.value.Some? then Some(s.value.value.text) else None
  }

  /** With distinct names, looking up slot `j`'s name in what the slots from `i` on write gives that slot's value. */
  lemma {:induction false} GetPresent(slots: seq<Slot>, i: nat, j: nat)
    requires DistinctNames(slots) && i <= j < |slots|
    ensures Get(PresentFrom(slots, i), slots[j].name) == SlotText(slots[j])
    decreases j - i
  {
    var n := slots[j].name;
    if i == j {
      GetPresentAbsent(slots, i + 1, n);
      var rest := PresentFrom(slots, i + 1);
      if slots[i].value.Some? {
        assert PresentFrom(slots, i) == [Attr(n, slots[i].value.value)] + rest;
      }
    } else {
      GetPresent(slots, i + 1, j);
      assert slots[i].name != n;
      var rest := PresentFrom(slots, i + 1);
      if slots[i].value.Some? {
        assert PresentFrom(slots, i) == [Attr(slots[i].name, slots[i].value.value)] + rest;
        assert ([Attr(slots[i].name, slots[i].value.value)] + rest)[1..] == rest;
      }
    }
  }

  /** The lookup of one named slot, stated for a name and value given by the caller. */
  lemma GetSlot(slots: seq<Slot>, i: nat, n: string, v: Option<string>)
    requires DistinctNames(slots) && i < |slots| && slots[i].name == n && SlotText(slots[i]) == v
    ensures ValueOf(ToMap(Present(slots)), n) == v
  {
    GetPresent(slots, 0, i);
    ToMapGet(Present(slots));
  }

  /** A slot whose attribute, if written, reads back and stays on one line. */
  predicate Writable(s: Slot)
  {
    s.value.Some? ==> Encodable(Attr(s.name, s.value.value)) && '\n' !in s.name && '\n' !in s.value.value.text
  }

  predicate AllWritable(slots: seq<Slot>)
  {
    forall i :: 0 <= i < |slots| ==> Writable(slots[i])
  }

  /** What writable slots from `i` on write is encodable and holds no line feed. */
  lemma {:induction false} PresentFromWritable(slots: seq<Slot>, i: nat)
    requires AllWritable(slots)
    ensures forall k :: 0 <= k < |PresentFrom(slots, i)| ==>
              Encodable(PresentFrom(slots, i)[k]) && '\n' !in PresentFrom(slots, i)[k].name && '\n' !in PresentFrom(slots, i)[k].value.text
    decreases |slots| - i
  {
    if i < |slots| {
      PresentFromWritable(slots, i + 1);
      assert Writable(slots[i]);
    }
  }

  /** The attributes of writable slots decode back to themselves and hold no line feed. */
  lemma PresentReads(slots: seq<Slot>)
    requires AllWritable(slots)
    ensures Decode(Encode(Present(slots))) == Success(Present(slots))
    ensures '\n' !in Encode(Present(slots))
  {
    var attrs := Present(slots);
    PresentFromWritable(slots, 0);
    assert AllEncodable(attrs);
    DecodeEncode(attrs);
    EncodeAvoids(attrs, '\n');
  }
}
