/**
 * The text of `injectorTemplate` (index.js:5-28), the script the plugin writes, cut at its
 * two placeholders. The text is held in short pieces, one source line or part of a line each.
 * The split is for the verifier: a fact about a long string literal, such as "holds no `%`",
 * is expensive to check in one piece, so each line gets a small lemma of its own
 * (`Line10Plain` and the others), and `TemplateTextPlain` puts them together.
 */
module ScriptText {
  /** Lines 5-7 up to the first placeholder. */
  const HeadPrefix: string := "\n" + ";(function() {\n" + "  var headTags = "

  /** The placeholder of line 7. */
  const HeadSlot: string := "<%= " + "headTags" + " %>"

  /** The rest of line 7 and line 8 up to the second placeholder. */
  const BodyInfix: string := ";\n" + "  var bodyTags = "

  /** The placeholder of line 8. */
  const BodySlot: string := "<%= " + "bodyTags" + " %>"

  /** Lines 10-13: appending the head tags. */
  const Line10: string := "  headTags.forEach" + "(function(tag) {\n"
  const Line11: string := "    document.head" + ".appendChild" + "(createResource(tag))\n"
  const Line12: string := "  })\n"
  const Line13: string := "\n"
  const HeadLoop: string := Line10 + Line11 + Line12 + Line13

  /** Lines 14-17: appending the body tags. */
  const Line14: string := "  bodyTags.forEach" + "(function(tag) {\n"
  const Line15: string := "    document.body" + ".appendChild" + "(createResource(tag))\n"
  const Line16: string := "  })\n"
  const Line17: string := "\n"
  const BodyLoop: string := Line14 + Line15 + Line16 + Line17

  /** Lines 18-21: start of `createResource`. */
  const Line18: string := "  function " + "createResource(source) " + "{\n"
  const Line19: string := "    var tagName = " + "source.tagName\n"
  const Line20: string := "    var attributes = " + "source.attributes\n"
  const Line21: string := "    var element = " + "document.createElement" + "(tagName)\n"
  const CreateElement: string := Line18 + Line19 + Line20 + Line21

  /** Lines 22-27: attribute copying and the end of the script. */
  const Line22: string := "    for (var attr in " + "attributes) {\n"
  const Line23: string := "      element" + ".setAttribute(attr, " + "attributes[attr])\n"
  const Line24: string := "    }\n"
  const Line25: string := "    return element\n"
  const Line26: string := "  }\n"
  const Line27: string := "})()\n"
  const SetAttributes: string := Line22 + Line23 + Line24 + Line25 + Line26 + Line27

  /** The rest of line 8, the empty line 9 and lines 10-27. */
  const ScriptSuffix: string := ";\n" + "\n" + HeadLoop + BodyLoop + CreateElement + SetAttributes

  /** `injectorTemplate`: the script text with its two placeholders. */
  const InjectorTemplate: string := HeadPrefix + HeadSlot + BodyInfix + BodySlot + ScriptSuffix

  lemma Line10Plain()
    ensures '%' !in Line10
  {
    assert '%' !in "  headTags.forEach";
    assert '%' !in "(function(tag) {\n";
  }

  lemma Line11Plain()
    ensures '%' !in Line11
  {
    assert '%' !in "    document.head";
    assert '%' !in ".appendChild";
    assert '%' !in "(createResource(tag))\n";
  }

  lemma HeadLoopPlain()
    ensures '%' !in HeadLoop
  {
    Line10Plain();
    Line11Plain();
  }

  lemma Line14Plain()
    ensures '%' !in Line14
  {
    assert '%' !in "  bodyTags.forEach";
    assert '%' !in "(function(tag) {\n";
  }

  lemma Line15Plain()
    ensures '%' !in Line15
  {
    assert '%' !in "    document.body";
    assert '%' !in ".appendChild";
    assert '%' !in "(createResource(tag))\n";
  }

  lemma BodyLoopPlain()
    ensures '%' !in BodyLoop
  {
    Line14Plain();
    Line15Plain();
  }

  lemma Line18Plain()
    ensures '%' !in Line18
  {
    assert '%' !in "  function ";
    assert '%' !in "createResource(source) ";
    assert '%' !in "{\n";
  }

  lemma Line19Plain()
    ensures '%' !in Line19
  {
    assert '%' !in "    var tagName = ";
    assert '%' !in "source.tagName\n";
  }

  lemma Line20Plain()
    ensures '%' !in Line20
  {
    assert '%' !in "    var attributes = ";
    assert '%' !in "source.attributes\n";
  }

  lemma Line21Plain()
    ensures '%' !in Line21
  {
    assert '%' !in "    var element = ";
    assert '%' !in "document.createElement";
    assert '%' !in "(tagName)\n";
  }

  lemma CreateElementPlain()
    ensures '%' !in CreateElement
  {
    Line18Plain();
    Line19Plain();
    Line20Plain();
    Line21Plain();
  }

  lemma Line22Plain()
    ensures '%' !in Line22
  {
    assert '%' !in "    for (var attr in ";
    assert '%' !in "attributes) {\n";
  }

  lemma Line23Plain()
    ensures '%' !in Line23
  {
    assert '%' !in "      element";
    assert '%' !in ".setAttribute(attr, ";
    assert '%' !in "attributes[attr])\n";
  }

  lemma SetAttributesPlain()
    ensures '%' !in SetAttributes
  {
    Line22Plain();
    Line23Plain();
  }

  /** Apart from its two placeholders, the template contains no `%`, so nothing else can match. */
  lemma TemplateTextPlain()
    ensures '%' !in HeadPrefix && '%' !in BodyInfix && '%' !in ScriptSuffix
  {
    HeadLoopPlain();
    BodyLoopPlain();
    CreateElementPlain();
    SetAttributesPlain();
  }

  /** The text after each placeholder starts with the `;` that ends its statement. */
  lemma TemplateTextStarts()
    ensures BodyInfix != [] && BodyInfix[0] == ';'
    ensures ScriptSuffix != [] && ScriptSuffix[0] == ';'
  {
  }
}
