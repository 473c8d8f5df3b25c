/**
 * JSON.stringify on a sequence of tag descriptors, as genInjectorData calls it, and a reader
 * for the text it produces. The reader is what the emitted script's `var headTags = ...`
 * initialiser amounts to; proving that it gives back the descriptors shows that the
 * serialisation keeps every descriptor, in order, and loses nothing.
 */
module Json {
  import opened Wrappers
  import opened Tags
  import Concat

  // ---------------------------------------------------------------------------------------
  // Strings (QuoteJSONString of ECMA-262)

  /** The lower-case hexadecimal digit for `d`. */
  function HexDigit(d: nat): (c: char)
    requires d < 16
  {
    if d < 10 then (48 + d) as char else (87 + d) as char
  }

  /** The value of a hexadecimal digit of either case. */
  function HexValue(c: char): (v: Option<nat>)
    ensures v.Some? ==> v.value < 16
  {
    if '0' <= c <= '9' then Some(c as int - 48)
    else if 'a' <= c <= 'f' then Some(c as int - 87)
    else if 'A' <= c <= 'F' then Some(c as int - 55)
    else None
  }

  /** How JSON.stringify writes one character inside a string literal. */
  function EscapeChar(c: char): string {
    var n := c as int;
    if c == '"' then "\\\""
    else if c == '\\' then "\\\\"
    else if n == 0x08 then "\\b"
    else if n == 0x09 then "\\t"
    else if n == 0x0A then "\\n"
    else if n == 0x0C then "\\f"
    else if n == 0x0D then "\\r"
    else if n < 0x20 then "\\u00" + [HexDigit(n / 16), HexDigit(n % 16)]
    else [c]
  }

  function Escape(s: string): string {
    if s == [] then [] else EscapeChar(s[0]) + Escape(s[1..])
  }

  function EncodeString(s: string): (r: string)
    ensures |r| >= 2 && r[0] == '"'
  {
    "\"" + Escape(s) + "\""
  }

  // ---------------------------------------------------------------------------------------
  // Tag descriptors and their sequences

  function EncodeAttribute(a: Attribute): (r: string)
    ensures r != [] && r[0] == '"'
  {
    EncodeString(a.name) + ":" + EncodeString(a.value)
  }

  /** The attributes after the first, each preceded by a comma, and the closing brace. */
  function AttributesTail(attrs: seq<Attribute>): (r: string)
    ensures r != [] && r[|r| - 1] == '}'
  {
    if attrs == [] then "}" else "," + (EncodeAttribute(attrs[0]) + AttributesTail(attrs[1..]))
  }

  /** The `attributes` object: one `"name":"value"` member per attribute, in order. */
  function EncodeAttributes(attrs: seq<Attribute>): string {
    if attrs == [] then "{}" else "{" + (EncodeAttribute(attrs[0]) + AttributesTail(attrs[1..]))
  }

  /** The text before the tag name: the object's opening brace and its first key. */
  const TagNameKey: string := "{\"tagName\":"

  /** The text between the tag name and the attributes object. */
  const AttributesKey: string := ",\"attributes\":"

  /** One descriptor as an object with the keys `tagName` and `attributes`, in that order. */
  function EncodeTag(t: TagDescriptor): (r: string)
  {
    TagNameKey + (EncodeString(t.tagName) + (AttributesKey + (EncodeAttributes(t.attributes) + "}")))
  }

  /** The descriptors after the first, each preceded by a comma, and the closing bracket. */
  function TagsTail(tags: seq<TagDescriptor>): (r: string)
    ensures r != [] && r[|r| - 1] == ']'
  {
    if tags == [] then "]" else "," + (EncodeTag(tags[0]) + TagsTail(tags[1..]))
  }

  /** JSON.stringify(tags): an array literal with one object per descriptor, in order. */
  function EncodeTags(tags: seq<TagDescriptor>): (r: string)
    ensures |r| >= 2 && r[0] == '[' && r[|r| - 1] == ']'
    ensures tags != [] ==> r[1] == '{'
  {
    if tags == [] then "[]" else "[" + (EncodeTag(tags[0]) + TagsTail(tags[1..]))
  }

  // ---------------------------------------------------------------------------------------
  // Reading the text back. Every reader returns what it read and the text after it.

  /** The text after the literal `lit`, if `s` starts with it. */
  function Expect(lit: string, s: string): (r: Option<string>)
    ensures r.Some? ==> |r.value| == |s| - |lit|
  {
    if lit == [] then Some(s)
    else if s != [] && s[0] == lit[0] then Expect(lit[1..], s[1..])
    else None
  }

  /** Reads the escape sequence after a backslash. */
  function ParseEscape(s: string): (r: Option<(char, string)>)
    ensures r.Some? ==> |r.value.1| < |s|
  {
    if s == [] then None
    else if s[0] == '"' then Some(('"', s[1..]))
    else if s[0] == '\\' then Some(('\\', s[1..]))
    else if s[0] == '/' then Some(('/', s[1..]))
    else if s[0] == 'b' then Some((0x08 as char, s[1..]))
    else if s[0] == 't' then Some((0x09 as char, s[1..]))
    else if s[0] == 'n' then Some((0x0A as char, s[1..]))
    else if s[0] == 'f' then Some((0x0C as char, s[1..]))
    else if s[0] == 'r' then Some((0x0D as char, s[1..]))
    else if s[0] == 'u' && |s| >= 5 then
      match (HexValue(s[1]), HexValue(s[2]), HexValue(s[3]), HexValue(s[4]))
      case (Some(a), Some(b), Some(c), Some(d)) =>
        var v := ((a * 16 + b) * 16 + c) * 16 + d;
        if v < 0xD800 || 0xE000 <= v then Some((v as char, s[5..])) else None
      case _ => None
    else None
  }

  /** Reads the characters of a string literal up to and including its closing quote. */
  function ParseChars(s: string): (r: Option<(string, string)>)
    ensures r.Some? ==> |r.value.1| < |s|
    decreases |s|
  {
    if s == [] then None
    else if s[0] == '"' then Some(([], s[1..]))
    else if s[0] == '\\' then
      match ParseEscape(s[1..])
      case None => None
      case Some((c, rest)) =>
        match ParseChars(rest)
        case None => None
        case Some((cs, after)) => Some(([c] + cs, after))
    else if (s[0] as int) < 0x20 then None
    else
      match ParseChars(s[1..])
      case None => None
      case Some((cs, after)) => Some(([s[0]] + cs, after))
  }

  function ParseString(s: string): (r: Option<(string, string)>)
    ensures r.Some? ==> |r.value.1| < |s|
  {
    if s != [] && s[0] == '"' then ParseChars(s[1..]) else None
  }

  function ParseAttribute(s: string): (r: Option<(Attribute, string)>)
    ensures r.Some? ==> |r.value.1| < |s|
  {
    match ParseString(s)
    case None => None
    case Some((name, r1)) =>
      match Expect(":", r1)
      case None => None
      case Some(r2) =>
        match ParseString(r2)
        case None => None
        case Some((value, r3)) => Some((Attribute(name, value), r3))
  }

  /** Reads `,attribute` repeatedly up to and including the closing brace. */
  function ParseAttributesTail(s: string): (r: Option<(seq<Attribute>, string)>)
    ensures r.Some? ==> |r.value.1| < |s|
    decreases |s|
  {
    if s != [] && s[0] == '}' then Some(([], s[1..]))
    else if s != [] && s[0] == ',' then
      match ParseAttribute(s[1..])
      case None => None
      case Some((a, r1)) =>
        match ParseAttributesTail(r1)
        case None => None
        case Some((attrs, r2)) => Some(([a] + attrs, r2))
    else None
  }

  function ParseAttributes(s: string): (r: Option<(seq<Attribute>, string)>)
    ensures r.Some? ==> |r.value.1| < |s|
  {
    if |s| >= 2 && s[0] == '{' && s[1] == '}' then Some(([], s[2..]))
    else if s != [] && s[0] == '{' then
      match ParseAttribute(s[1..])
      case None => None
      case Some((a, r1)) =>
        match ParseAttributesTail(r1)
        case None => None
        case Some((attrs, r2)) => Some(([a] + attrs, r2))
    else None
  }

  function ParseTag(s: string): (r: Option<(TagDescriptor, string)>)
    ensures r.Some? ==> |r.value.1| < |s|
  {
    match Expect(TagNameKey, s)
    case None => None
    case Some(r1) =>
      match ParseString(r1)
      case None => None
      case Some((name, r2)) =>
        match Expect(AttributesKey, r2)
        case None => None
        case Some(r3) =>
          match ParseAttributes(r3)
          case None => None
          case Some((attrs, r4)) =>
            match Expect("}", r4)
            case None => None
            case Some(r5) => Some((TagDescriptor(name, attrs), r5))
  }

  /** Reads `,descriptor` repeatedly up to and including the closing bracket. */
  function ParseTagsTail(s: string): (r: Option<(seq<TagDescriptor>, string)>)
    ensures r.Some? ==> |r.value.1| < |s|
    decreases |s|
  {
    if s != [] && s[0] == ']' then Some(([], s[1..]))
    else if s != [] && s[0] == ',' then
      match ParseTag(s[1..])
      case None => None
      case Some((t, r1)) =>
        match ParseTagsTail(r1)
        case None => None
        case Some((tags, r2)) => Some(([t] + tags, r2))
    else None
  }

  /** Reads an array literal of tag descriptors. */
  function ParseTags(s: string): (r: Option<(seq<TagDescriptor>, string)>)
    ensures r.Some? ==> |r.value.1| < |s|
  {
    if |s| >= 2 && s[0] == '[' && s[1] == ']' then Some(([], s[2..]))
    else if s != [] && s[0] == '[' then
      match ParseTag(s[1..])
      case None => None
      case Some((t, r1)) =>
        match ParseTagsTail(r1)
        case None => None
        case Some((tags, r2)) => Some(([t] + tags, r2))
    else None
  }

  /** The descriptors a whole text denotes, if it is exactly one array literal. */
  function DecodeTags(s: string): Option<seq<TagDescriptor>> {
    match ParseTags(s)
    case Some((tags, rest)) => if rest == [] then Some(tags) else None
    case None => None
  }

  // ---------------------------------------------------------------------------------------
  // Round trips

  lemma {:induction false} ExpectPrefix(lit: string, rest: string)
    ensures Expect(lit, lit + rest) == Some(rest)
  {
    if lit != [] {
      assert (lit + rest)[1..] == lit[1..] + rest;
      ExpectPrefix(lit[1..], rest);
    } else {
      assert lit + rest == rest;
    }
  }

  /** Reading one escaped character back gives the character. */
  lemma ParseEscapeChar(c: char, rest: string)
    ensures ParseChars(EscapeChar(c) + rest) == match ParseChars(rest)
      case None => None
      case Some((cs, after)) => Some(([c] + cs, after))
  {
    var n := c as int;
    if c == '"' || c == '\\' || n == 0x08 || n == 0x09 || n == 0x0A || n == 0x0C || n == 0x0D {
      ParseShortEscape(c, rest);
    } else if n < 0x20 {
      ParseUnicodeEscape(c, rest);
    } else {
      var s := EscapeChar(c) + rest;
      assert s[0] == c && s[1..] == rest;
    }
  }

  /** The two-character escapes: a backslash and one letter or symbol. */
  lemma ParseShortEscape(c: char, rest: string)
    requires var n := c as int;
      c == '"' || c == '\\' || n == 0x08 || n == 0x09 || n == 0x0A || n == 0x0C || n == 0x0D
    ensures |EscapeChar(c)| == 2 && EscapeChar(c)[0] == '\\'
    ensures ParseEscape(EscapeChar(c)[1..] + rest) == Some((c, rest))
  {
    var s := EscapeChar(c)[1..] + rest;
    assert s[1..] == rest;
  }

  /** The `\u00XX` escapes of the other control characters. */
  lemma ParseUnicodeEscape(c: char, rest: string)
    requires var n := c as int;
      n < 0x20 && n != 0x08 && n != 0x09 && n != 0x0A && n != 0x0C && n != 0x0D
    ensures ParseChars(EscapeChar(c) + rest) == match ParseChars(rest)
      case None => None
      case Some((cs, after)) => Some(([c] + cs, after))
  {
    var n := c as int;
    var hi, lo := HexDigit(n / 16), HexDigit(n % 16);
    var s := EscapeChar(c) + rest;
    assert s == "\\u00" + [hi, lo] + rest;
    assert s[1..][5..] == rest;
    assert HexValue(hi) == Some(n / 16);
    assert HexValue(lo) == Some(n % 16);
    assert ParseEscape(s[1..]) == Some((c, rest));
  }

  lemma {:induction false} ParseEscaped(s: string, rest: string)
    ensures ParseChars(Escape(s) + "\"" + rest) == Some((s, rest))
  {
    if s == [] {
      assert Escape(s) + "\"" + rest == "\"" + rest;
      assert ("\"" + rest)[1..] == rest;
    } else {
      var tail := Escape(s[1..]) + "\"" + rest;
      assert Escape(s) + "\"" + rest == EscapeChar(s[0]) + tail;
      ParseEscapeChar(s[0], tail);
      ParseEscaped(s[1..], rest);
      assert [s[0]] + s[1..] == s;
    }
  }

  /** A string literal reads back as the string it encodes. */
  lemma ParseEncodedString(s: string, rest: string)
    ensures ParseString(EncodeString(s) + rest) == Some((s, rest))
  {
    var t := EncodeString(s) + rest;
    assert t == "\"" + (Escape(s) + "\"" + rest);
    assert t[1..] == Escape(s) + "\"" + rest;
    ParseEscaped(s, rest);
  }

  lemma ParseEncodedAttribute(a: Attribute, rest: string)
    ensures ParseAttribute(EncodeAttribute(a) + rest) == Some((a, rest))
  {
    var valueText := EncodeString(a.value) + rest;
    assert EncodeAttribute(a) + rest == EncodeString(a.name) + (":" + valueText) by {
      Concat.Regroup(EncodeString(a.name) + ":", EncodeString(a.value), rest);
      Concat.Regroup(EncodeString(a.name), ":", valueText);
    }
    ParseEncodedString(a.name, ":" + valueText);
    ExpectPrefix(":", valueText);
    ParseEncodedString(a.value, rest);
  }

  /** How the readers of a comma-separated sequence read one more element. */
  lemma ParseAttributesTailStep(s: string, a: Attribute, r1: string, attrs: seq<Attribute>, r2: string)
    requires s != [] && s[0] == ','
    requires ParseAttribute(s[1..]) == Some((a, r1)) && ParseAttributesTail(r1) == Some((attrs, r2))
    ensures ParseAttributesTail(s) == Some(([a] + attrs, r2))
  {
  }

  lemma ParseAttributesStep(s: string, a: Attribute, r1: string, attrs: seq<Attribute>, r2: string)
    requires |s| >= 2 && s[0] == '{' && s[1] == '"'
    requires ParseAttribute(s[1..]) == Some((a, r1)) && ParseAttributesTail(r1) == Some((attrs, r2))
    ensures ParseAttributes(s) == Some(([a] + attrs, r2))
  {
  }

  lemma ParseTagsTailStep(s: string, t: TagDescriptor, r1: string, tags: seq<TagDescriptor>, r2: string)
    requires s != [] && s[0] == ','
    requires ParseTag(s[1..]) == Some((t, r1)) && ParseTagsTail(r1) == Some((tags, r2))
    ensures ParseTagsTail(s) == Some(([t] + tags, r2))
  {
  }

  lemma ParseTagsStep(s: string, t: TagDescriptor, r1: string, tags: seq<TagDescriptor>, r2: string)
    requires |s| >= 2 && s[0] == '[' && s[1] == '{'
    requires ParseTag(s[1..]) == Some((t, r1)) && ParseTagsTail(r1) == Some((tags, r2))
    ensures ParseTags(s) == Some(([t] + tags, r2))
  {
  }

  /** `open + (e + tail) + rest` is `open` followed by `e + (tail + rest)`. */
  lemma SplitFirst(open: string, e: string, tail: string, rest: string)
    requires |open| == 1
    ensures (open + (e + tail) + rest)[1..] == e + (tail + rest)
    ensures (open + (e + tail) + rest)[0] == open[0]
    ensures e != [] ==> (open + (e + tail) + rest)[1] == e[0]
  {
    Concat.Regroup(open, e + tail, rest);
    Concat.Regroup(e, tail, rest);
  }

  /** One more attribute in front of a tail that reads back: the longer tail reads back too. */
  lemma ParseAttributesTailCons(a: Attribute, attrs: seq<Attribute>, rest: string)
    requires ParseAttributesTail(AttributesTail(attrs) + rest) == Some((attrs, rest))
    ensures ParseAttributesTail(AttributesTail([a] + attrs) + rest) == Some(([a] + attrs, rest))
  {
    var all := [a] + attrs;
    assert all[0] == a && all[1..] == attrs;
    var s := AttributesTail(all) + rest;
    var after := AttributesTail(attrs) + rest;
    SplitFirst(",", EncodeAttribute(a), AttributesTail(attrs), rest);
    ParseEncodedAttribute(a, after);
    ParseAttributesTailStep(s, a, after, attrs, rest);
  }

  lemma {:induction false} ParseEncodedAttributesTail(attrs: seq<Attribute>, rest: string)
    ensures ParseAttributesTail(AttributesTail(attrs) + rest) == Some((attrs, rest))
  {
    if attrs == [] {
      assert ("}" + rest)[1..] == rest;
    } else {
      ParseEncodedAttributesTail(attrs[1..], rest);
      ParseAttributesTailCons(attrs[0], attrs[1..], rest);
      assert [attrs[0]] + attrs[1..] == attrs;
    }
  }

  lemma ParseEncodedAttributes(attrs: seq<Attribute>, rest: string)
    ensures ParseAttributes(EncodeAttributes(attrs) + rest) == Some((attrs, rest))
  {
    if attrs == [] {
      assert ("{}" + rest)[2..] == rest;
    } else {
      var s := EncodeAttributes(attrs) + rest;
      var after := AttributesTail(attrs[1..]) + rest;
      assert |s| >= 2 && s[0] == '{' && s[1] == '"' && ParseAttribute(s[1..]) == Some((attrs[0], after)) by {
        SplitFirst("{", EncodeAttribute(attrs[0]), AttributesTail(attrs[1..]), rest);
        ParseEncodedAttribute(attrs[0], after);
      }
      assert ParseAttributesTail(after) == Some((attrs[1..], rest)) by {
        ParseEncodedAttributesTail(attrs[1..], rest);
      }
      ParseAttributesStep(s, attrs[0], after, attrs[1..], rest);
      assert [attrs[0]] + attrs[1..] == attrs;
    }
  }

  /** How ParseTag reads a text whose five parts read as given. */
  lemma ParseTagSteps(s: string, r1: string, name: string, r2: string, r3: string,
                      attrs: seq<Attribute>, r4: string, r5: string)
    requires Expect(TagNameKey, s) == Some(r1)
    requires ParseString(r1) == Some((name, r2))
    requires Expect(AttributesKey, r2) == Some(r3)
    requires ParseAttributes(r3) == Some((attrs, r4))
    requires Expect("}", r4) == Some(r5)
    ensures ParseTag(s) == Some((TagDescriptor(name, attrs), r5))
  {
  }

  lemma ParseEncodedTag(t: TagDescriptor, rest: string)
    ensures ParseTag(EncodeTag(t) + rest) == Some((t, rest))
  {
    var r4 := "}" + rest;
    var r3 := EncodeAttributes(t.attributes) + r4;
    var r2 := AttributesKey + r3;
    var r1 := EncodeString(t.tagName) + r2;
    assert EncodeTag(t) + rest == TagNameKey + r1 by {
      var a := EncodeAttributes(t.attributes) + "}";
      var b := AttributesKey + a;
      var c := EncodeString(t.tagName) + b;
      Concat.Regroup(TagNameKey, c, rest);
      Concat.Regroup(EncodeString(t.tagName), b, rest);
      Concat.Regroup(AttributesKey, a, rest);
      Concat.Regroup(EncodeAttributes(t.attributes), "}", rest);
    }
    assert Expect(TagNameKey, EncodeTag(t) + rest) == Some(r1) by {
      ExpectPrefix(TagNameKey, r1);
    }
    assert ParseString(r1) == Some((t.tagName, r2)) by {
      ParseEncodedString(t.tagName, r2);
    }
    assert Expect(AttributesKey, r2) == Some(r3) by {
      ExpectPrefix(AttributesKey, r3);
    }
    assert ParseAttributes(r3) == Some((t.attributes, r4)) by {
      ParseEncodedAttributes(t.attributes, r4);
    }
    assert Expect("}", r4) == Some(rest) by {
      ExpectPrefix("}", rest);
    }
    ParseTagSteps(EncodeTag(t) + rest, r1, t.tagName, r2, r3, t.attributes, r4, rest);
  }

  /** One more descriptor in front of a tail that reads back: the longer tail reads back too. */
  lemma ParseTagsTailCons(t: TagDescriptor, tags: seq<TagDescriptor>, rest: string)
    requires ParseTagsTail(TagsTail(tags) + rest) == Some((tags, rest))
    ensures ParseTagsTail(TagsTail([t] + tags) + rest) == Some(([t] + tags, rest))
  {
    var all := [t] + tags;
    assert all[0] == t && all[1..] == tags;
    var s := TagsTail(all) + rest;
    var after := TagsTail(tags) + rest;
    SplitFirst(",", EncodeTag(t), TagsTail(tags), rest);
    ParseEncodedTag(t, after);
    ParseTagsTailStep(s, t, after, tags, rest);
  }

  lemma {:induction false} ParseEncodedTagsTail(tags: seq<TagDescriptor>, rest: string)
    ensures ParseTagsTail(TagsTail(tags) + rest) == Some((tags, rest))
  {
    if tags == [] {
      assert ("]" + rest)[1..] == rest;
    } else {
      ParseEncodedTagsTail(tags[1..], rest);
      ParseTagsTailCons(tags[0], tags[1..], rest);
      assert [tags[0]] + tags[1..] == tags;
    }
  }

  /** A first descriptor in front of a tail that reads back: the whole array reads back. */
  lemma ParseTagsCons(t: TagDescriptor, tags: seq<TagDescriptor>, rest: string)
    requires ParseTagsTail(TagsTail(tags) + rest) == Some((tags, rest))
    ensures ParseTags(EncodeTags([t] + tags) + rest) == Some(([t] + tags, rest))
  {
    var all := [t] + tags;
    assert all[0] == t && all[1..] == tags;
    var s := EncodeTags(all) + rest;
    var after := TagsTail(tags) + rest;
    SplitFirst("[", EncodeTag(t), TagsTail(tags), rest);
    ParseEncodedTag(t, after);
    ParseTagsStep(s, t, after, tags, rest);
  }

  /** The serialised array reads back as the same descriptors, in the same order. */
  lemma ParseEncodedTags(tags: seq<TagDescriptor>, rest: string)
    ensures ParseTags(EncodeTags(tags) + rest) == Some((tags, rest))
  {
    if tags == [] {
      assert ("[]" + rest)[2..] == rest;
    } else {
      ParseEncodedTagsTail(tags[1..], rest);
      ParseTagsCons(tags[0], tags[1..], rest);
      assert [tags[0]] + tags[1..] == tags;
    }
  }

  /** A text that does not start with `[` is not an array. */
  lemma ParseTagsNeedsBracket(s: string)
    requires s != [] && s[0] != '['
    ensures ParseTags(s) == None
  {
  }

  /** Decoding the serialisation gives back the descriptors: nothing reordered, dropped or merged. */
  lemma DecodeEncodeTags(tags: seq<TagDescriptor>)
    ensures DecodeTags(EncodeTags(tags)) == Some(tags)
  {
    ParseEncodedTags(tags, []);
    assert EncodeTags(tags) + [] == EncodeTags(tags);
  }

  /** Different descriptor sequences never serialise to the same text. */
  lemma EncodeTagsInjective(a: seq<TagDescriptor>, b: seq<TagDescriptor>)
    requires EncodeTags(a) == EncodeTags(b)
    ensures a == b
  {
    DecodeEncodeTags(a);
    DecodeEncodeTags(b);
  }

  /** An empty descriptor list, and only that, serialises to the empty array `[]`. */
  lemma EncodeTagsEmpty(tags: seq<TagDescriptor>)
    ensures EncodeTags(tags) == "[]" <==> tags == []
  {
    if EncodeTags(tags) == "[]" {
      assert EncodeTags([]) == "[]";
      EncodeTagsInjective(tags, []);
    }
  }
}
