/**
 * The build-time half of the plugin: `genInjectorData` picks the captured asset tags and
 * serialises them, and `writeInjectorScript` renders the fixed `injectorTemplate` with the
 * result (index.js:5-28, 46-57, 76-79).
 */
module Injector {
  import opened Wrappers
  import opened Tags
  import Json
  import Template
  import JsString
  import Concat
  import opened ScriptText

  /** The `assetTags` object of an html-webpack-plugin 4 hook payload; a missing list is `None`. */
  datatype AssetTags = AssetTags(styles: Option<seq<TagDescriptor>>, scripts: Option<seq<TagDescriptor>>)

  /**
   * The payload of the alter-asset-tags hook: `assetTags` (plugin version 4) or the flat `head`
   * and `body` lists (plugin version 3). Absent fields are `None`.
   */
  datatype HookPayload = HookPayload(
    assetTags: Option<AssetTags>,
    head: Option<seq<TagDescriptor>>,
    body: Option<seq<TagDescriptor>>)

  /** The object `genInjectorData` returns; `None` is the `undefined` that `JSON.stringify` gives for a missing list. */
  datatype InjectorData = InjectorData(headTags: Option<string>, bodyTags: Option<string>)

  /** `JSON.stringify` of a list that may be `undefined`. */
  function Stringify(tags: Option<seq<TagDescriptor>>): Option<string> {
    match tags
    case None => None
    case Some(ts) => Some(Json.EncodeTags(ts))
  }

  /**
   * `genInjectorData`: the `assetTags` lists when the payload has them, the flat lists
   * otherwise. Each slot reads back as exactly the list it was taken from, order and
   * duplicates kept, and `undefined` stays `undefined`.
   */
  function GenInjectorData(data: HookPayload): (r: InjectorData)
    ensures Parse(r.headTags) == HeadSource(data)
    ensures Parse(r.bodyTags) == BodySource(data)
  {
    if data.assetTags.Some? then
      ParseStringify(data.assetTags.value.styles);
      ParseStringify(data.assetTags.value.scripts);
      InjectorData(Stringify(data.assetTags.value.styles), Stringify(data.assetTags.value.scripts))
    else
      ParseStringify(data.head);
      ParseStringify(data.body);
      InjectorData(Stringify(data.head), Stringify(data.body))
  }

  /** The list the head slot is meant to carry: the styles of `assetTags` when present, else `head`. */
  ghost function HeadSource(p: HookPayload): Option<seq<TagDescriptor>> {
    if p.assetTags.Some? then p.assetTags.value.styles else p.head
  }

  /** The list the body slot is meant to carry: the scripts of `assetTags` when present, else `body`. */
  ghost function BodySource(p: HookPayload): Option<seq<TagDescriptor>> {
    if p.assetTags.Some? then p.assetTags.value.scripts else p.body
  }

  /** Reading a serialised list back; `undefined` reads back as a missing list. */
  function Parse(s: Option<string>): Option<seq<TagDescriptor>> {
    match s
    case None => None
    case Some(text) => Json.DecodeTags(text)
  }

  /** `JSON.stringify` of a list, possibly `undefined`, reads back as that list. */
  lemma ParseStringify(tags: Option<seq<TagDescriptor>>)
    ensures Parse(Stringify(tags)) == tags
  {
    if tags.Some? {
      Json.DecodeEncodeTags(tags.value);
    }
  }

  /**
   * A slot is `[]` exactly when its list is empty, and `undefined` exactly when its list is
   * missing.
   */
  lemma GenInjectorDataEmptyAndMissing(p: HookPayload)
    ensures GenInjectorData(p).headTags == Some("[]") <==> HeadSource(p) == Some([])
    ensures GenInjectorData(p).bodyTags == Some("[]") <==> BodySource(p) == Some([])
    ensures GenInjectorData(p).headTags.None? <==> HeadSource(p).None?
    ensures GenInjectorData(p).bodyTags.None? <==> BodySource(p).None?
  {
    var h := HeadSource(p);
    var b := BodySource(p);
    if h.Some? { Json.EncodeTagsEmpty(h.value); }
    if b.Some? { Json.EncodeTagsEmpty(b.value); }
  }

  /**
   * Rendering `injectorTemplate` replaces the `headTags` placeholder of line 7 and the
   * `bodyTags` placeholder of line 8 by their values, and copies everything else unchanged.
   */
  lemma RenderInjectorTemplate(data: map<string, string>)
    ensures Template.Render(InjectorTemplate, data)
         == Ok(HeadPrefix + Template.Lookup(data, "headTags") + BodyInfix
               + Template.Lookup(data, "bodyTags") + ScriptSuffix)
  {
    TemplateTextPlain();
    assert Template.AllNameChars("headTags") && JsString.IsTrimmed("headTags");
    assert Template.AllNameChars("bodyTags") && JsString.IsTrimmed("bodyTags");
    Template.RenderTwoSlots(HeadPrefix, "headTags", BodyInfix, "bodyTags", ScriptSuffix, data);
  }

  /** The object handed to the renderer: only the slots that are not `undefined` have a value. */
  function TemplateData(d: InjectorData): map<string, string> {
    var head := if d.headTags.Some? then map["headTags" := d.headTags.value] else map[];
    var body := if d.bodyTags.Some? then map["bodyTags" := d.bodyTags.value] else map[];
    head + body
  }

  /**
   * The text `writeInjectorScript` writes to the output file. Rendering never fails on the
   * injector template, and the script is the template with each slot's value (or nothing,
   * for `undefined`) in place of its placeholder.
   */
  function InjectorContent(d: InjectorData): (r: Result<string, Template.RenderError>)
    ensures r == Ok(HeadPrefix + OrEmpty(d.headTags) + BodyInfix + OrEmpty(d.bodyTags) + ScriptSuffix)
  {
    var m := TemplateData(d);
    assert Template.Lookup(m, "headTags") == OrEmpty(d.headTags);
    assert Template.Lookup(m, "bodyTags") == OrEmpty(d.bodyTags);
    RenderInjectorTemplate(m);
    Template.Render(InjectorTemplate, m)
  }

  /** `undefined || ''`: a missing slot renders as nothing. */
  function OrEmpty(s: Option<string>): string {
    if s.Some? then s.value else ""
  }

  /**
   * `injectorTemplate` holds the `headTags` placeholder right after line 7's `var headTags = `,
   * the `bodyTags` placeholder right after line 8's `var bodyTags = `, and no bare `<%=%>`.
   */
  lemma InjectorTemplateSlots()
    ensures Template.IsPlaceholderAt(InjectorTemplate, |HeadPrefix|, " headTags ")
    ensures Template.IsPlaceholderAt(InjectorTemplate, |HeadPrefix + HeadSlot + BodyInfix|, " bodyTags ")
    ensures !Template.ContainsBarePlaceholder(InjectorTemplate)
  {
    assert HeadSlot == "<%=" + " headTags " + "%>";
    assert BodySlot == "<%=" + " bodyTags " + "%>";
    Template.PlaceholderAfter(HeadPrefix, " headTags ", BodyInfix + BodySlot + ScriptSuffix);
    Template.PlaceholderAfter(HeadPrefix + HeadSlot + BodyInfix, " bodyTags ", ScriptSuffix);
    Concat.Regroup5(HeadPrefix, HeadSlot, BodyInfix, BodySlot, ScriptSuffix);
    RenderInjectorTemplate(map[]);
  }

  /**
   * A reader of a script made of the fixed texts `prefix`, `infix` and `suffix` around two
   * slots, each holding a JSON array of tag descriptors.
   */
  function ReadSlots(prefix: string, infix: string, suffix: string, c: string)
    : Option<(seq<TagDescriptor>, seq<TagDescriptor>)>
  {
    match Json.Expect(prefix, c)
    case None => None
    case Some(r1) =>
      match Json.ParseTags(r1)
      case None => None
      case Some((heads, r2)) =>
        match Json.Expect(infix, r2)
        case None => None
        case Some(r3) =>
          match Json.ParseTags(r3)
          case None => None
          case Some((bodies, r4)) =>
            if r4 == suffix then Some((heads, bodies)) else None
  }

  /** The reader of the injector script: its text around the two slots is the template's. */
  function ReadScript(c: string): Option<(seq<TagDescriptor>, seq<TagDescriptor>)> {
    ReadSlots(HeadPrefix, BodyInfix, ScriptSuffix, c)
  }

  lemma ReadSlotsSteps(prefix: string, infix: string, suffix: string, c: string, r1: string,
                       heads: seq<TagDescriptor>, r2: string, r3: string, bodies: seq<TagDescriptor>)
    requires Json.Expect(prefix, c) == Some(r1)
    requires Json.ParseTags(r1) == Some((heads, r2))
    requires Json.Expect(infix, r2) == Some(r3)
    requires Json.ParseTags(r3) == Some((bodies, suffix))
    ensures ReadSlots(prefix, infix, suffix, c) == Some((heads, bodies))
  {
  }

  /** Two serialised lists between the fixed texts read back as the two lists. */
  lemma ReadSlotsEncoded(prefix: string, infix: string, suffix: string,
                         heads: seq<TagDescriptor>, bodies: seq<TagDescriptor>)
    ensures ReadSlots(prefix, infix, suffix,
                      prefix + Json.EncodeTags(heads) + infix + Json.EncodeTags(bodies) + suffix)
         == Some((heads, bodies))
  {
    var h := Json.EncodeTags(heads);
    var b := Json.EncodeTags(bodies);
    var tail := infix + (b + suffix);
    Concat.Regroup5(prefix, h, infix, b, suffix);
    Json.ExpectPrefix(prefix, h + tail);
    Json.ParseEncodedTags(heads, tail);
    Json.ExpectPrefix(infix, b + suffix);
    Json.ParseEncodedTags(bodies, suffix);
    ReadSlotsSteps(prefix, infix, suffix, prefix + (h + tail), h + tail, heads, tail, b + suffix, bodies);
  }

  lemma ReadSlotsHeadFails(prefix: string, infix: string, suffix: string, c: string, r1: string)
    requires Json.Expect(prefix, c) == Some(r1)
    requires Json.ParseTags(r1) == None
    ensures ReadSlots(prefix, infix, suffix, c) == None
  {
  }

  lemma ReadSlotsBodyFails(prefix: string, infix: string, suffix: string, c: string, r1: string,
                           heads: seq<TagDescriptor>, r2: string, r3: string)
    requires Json.Expect(prefix, c) == Some(r1)
    requires Json.ParseTags(r1) == Some((heads, r2))
    requires Json.Expect(infix, r2) == Some(r3)
    requires Json.ParseTags(r3) == None
    ensures ReadSlots(prefix, infix, suffix, c) == None
  {
  }

  /** A missing head list: the text after the prefix starts with `;`, which is not an array. */
  lemma ReadSlotsHeadMissing(prefix: string, infix: string, suffix: string, b: string)
    requires infix != [] && infix[0] == ';'
    ensures var c := prefix + [] + infix + b + suffix;
      && ReadSlots(prefix, infix, suffix, c) == None
      && prefix + infix <= c
  {
    var tail := infix + (b + suffix);
    var c := prefix + [] + infix + b + suffix;
    Concat.Regroup5(prefix, [], infix, b, suffix);
    assert [] + tail == tail;
    Json.ExpectPrefix(prefix, tail);
    Json.ParseTagsNeedsBracket(tail);
    ReadSlotsHeadFails(prefix, infix, suffix, c, tail);
    assert c == prefix + infix + (b + suffix);
  }

  /** A missing body list: the text after the infix starts with `;`, which is not an array. */
  lemma ReadSlotsBodyMissing(prefix: string, infix: string, suffix: string, heads: seq<TagDescriptor>)
    requires suffix != [] && suffix[0] == ';'
    ensures ReadSlots(prefix, infix, suffix, prefix + Json.EncodeTags(heads) + infix + [] + suffix) == None
  {
    var h := Json.EncodeTags(heads);
    var tail := infix + ([] + suffix);
    var c := prefix + h + infix + [] + suffix;
    Concat.Regroup5(prefix, h, infix, [], suffix);
    assert [] + suffix == suffix;
    Json.ExpectPrefix(prefix, h + tail);
    Json.ParseEncodedTags(heads, tail);
    Json.ExpectPrefix(infix, suffix);
    Json.ParseTagsNeedsBracket(suffix);
    ReadSlotsBodyFails(prefix, infix, suffix, c, h + tail, heads, tail, suffix);
  }

  /** An empty slot where a list belongs: the text that follows is not an array, so reading fails. */
  lemma ReadSlotsMissing(prefix: string, infix: string, suffix: string,
                         heads: Option<seq<TagDescriptor>>, bodies: Option<seq<TagDescriptor>>)
    requires infix != [] && infix[0] == ';' && suffix != [] && suffix[0] == ';'
    requires heads.None? || bodies.None?
    ensures var c := prefix + OrEmpty(Stringify(heads)) + infix + OrEmpty(Stringify(bodies)) + suffix;
      && ReadSlots(prefix, infix, suffix, c) == None
      && (heads.None? ==> prefix + infix <= c)
  {
    if heads.None? {
      ReadSlotsHeadMissing(prefix, infix, suffix, OrEmpty(Stringify(bodies)));
    } else {
      ReadSlotsBodyMissing(prefix, infix, suffix, heads.value);
    }
  }

  /**
   * End to end: when both lists are present, the script written for a hook payload carries
   * exactly those lists, head then body, in their original order.
   */
  lemma ScriptCarriesTags(p: HookPayload, heads: seq<TagDescriptor>, bodies: seq<TagDescriptor>)
    requires HeadSource(p) == Some(heads) && BodySource(p) == Some(bodies)
    ensures InjectorContent(GenInjectorData(p)).Ok?
    ensures ReadScript(InjectorContent(GenInjectorData(p)).value) == Some((heads, bodies))
  {
    ReadSlotsEncoded(HeadPrefix, BodyInfix, ScriptSuffix, heads, bodies);
  }

  /**
   * A missing list leaves its slot empty in the written script (`var headTags = ;`), so the
   * script no longer holds two arrays.
   */
  lemma MissingListLeavesSlotEmpty(p: HookPayload)
    requires HeadSource(p).None? || BodySource(p).None?
    ensures InjectorContent(GenInjectorData(p)).Ok?
    ensures var c := InjectorContent(GenInjectorData(p)).value;
      && (HeadSource(p).None? ==> HeadPrefix + BodyInfix <= c)
      && ReadScript(c) == None
  {
    var d := GenInjectorData(p);
    assert d == InjectorData(Stringify(HeadSource(p)), Stringify(BodySource(p)));
    ScriptText.TemplateTextStarts();
    ReadSlotsMissing(HeadPrefix, BodyInfix, ScriptSuffix, HeadSource(p), BodySource(p));
  }
}
