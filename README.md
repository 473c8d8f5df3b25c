# webpack-gen-injector-script, modelled in Dafny

`webpack-gen-injector-script` is a webpack plugin. It captures the asset tags that
html-webpack-plugin is about to put into the HTML page. After the build it writes a standalone
script, `injector.js` by default. When that script runs in a browser, it recreates the same
`<link>`/`<script>` elements in `<head>` and `<body>`. All of the plugin lives in `index.js`.

This project models the part of it that is pure text and data handling:

- `wrappers.dfy` (`Wrappers`): `Option` and `Result`.
- `concat.dfy` (`Concat`): regrouping a concatenation of texts, a helper for the proofs.
- `js_string.dfy` (`JsString`): `String.prototype.trim`, with the JavaScript set of whitespace
  characters.
- `template.dfy` (`Template`): `compiledTemplate`, the global replace of
  `/<%=([^%>]+)?%>/g`. Each match is replaced by `data[key.trim()] || ''`.
  - The replace is modelled as a left-to-right scan, `Render`. At each offset it either
    consumes a whole match or copies one character.
  - A bare `<%=%>` leaves the capture group `undefined`, so `key.trim()` throws. `Render` then
    returns `Err(UndefinedCapture)`.
- `tags.dfy` (`Tags`): tag descriptors, meaning a tag name and its attributes in order.
- `json.dfy` (`Json`): `JSON.stringify` of a sequence of tag descriptors, with the string
  escaping of ECMA-262 `QuoteJSONString`.
  - It also holds a reader for that text. The reader is the partner used to prove that
    serialising keeps every descriptor, in order.
- `script_text.dfy` (`ScriptText`): the fixed `injectorTemplate`, cut at its two placeholders
  and held line by line.
- `injector.dfy` (`Injector`):
  - `genInjectorData`: the `assetTags` lists win over the flat `head`/`body` lists.
  - The text `writeInjectorScript` writes.
  - A reader of that script, used for the end-to-end round trip.
- `plugin.dfy` (`Plugin`):
  - the option merge of the constructor;
  - the class `WebpackGenInjectorScript`, whose constructor fixes `config`;
  - `getOutputPath`, as a plain join;
  - the write that the alter-asset-tags handler schedules.

Two behaviours of `index.js` that a reader might not expect are modelled as the code has them:

- `compiledTemplate` throws on a bare `<%=%>` (index.js:66-67). The regular expression
  matches it, but its capture group is `undefined`, so `key.trim()` raises a TypeError.
  `Template.Render` then returns `Err(UndefinedCapture)`, and its contract states that this
  happens exactly when the template contains a bare `<%=%>`.
- A missing tag list makes `JSON.stringify` return `undefined` (index.js:49-50, 54-55), and
  the renderer turns that into `''`. The script then reads `var headTags = ;`, not
  `var headTags = [];`. `Injector.MissingListLeavesSlotEmpty` states this.

## Model

| member | source | states |
|---|---|---|
| JsString.Trim | index.js:67 | `key.trim()` returns a sub-string of the key with no JavaScript whitespace at either end, and only whitespace is cut off on either side |
| JsString.TrimPadded | index.js:67 | trimming a name with whitespace on both sides returns exactly the name, so spaces around a placeholder name do not matter |
| JsString.TrimIdempotent | index.js:67 | trimming twice is trimming once |
| Template.MatchAt | index.js:66 | a match the regular expression reports at the front is `<%=`, a name of characters other than `%` and `>`, and `%>`; its width is the name's length plus 5 |
| Template.MatchAtComplete | index.js:66 | every placeholder at the front is matched, with its whole name |
| Template.PlaceholdersDoNotOverlap | index.js:66 | two occurrences of the pattern never overlap, so a global replace sees every one of them |
| Template.Lookup | index.js:67 | `data[key] \|\| ''` is the stored value when the key is present, and the empty string when it is absent |
| Template.Render | index.js:65-69 | `compiledTemplate` fails if and only if the template contains a bare `<%=%>` anywhere, since only that match has an undefined capture |
| Template.RenderVerbatim | index.js:65-69 | a template with no placeholder is returned unchanged |
| Template.RenderBareFails | index.js:66-67 | any text with a bare `<%=%>` anywhere in it fails to render |
| Template.RenderPlaceholderFirst | index.js:66-68 | a placeholder at the front becomes the value of its trimmed name, that value is not scanned again, and the scan carries on right after the placeholder |
| Template.RenderPlainPrefix | index.js:65-69 | text in which no placeholder starts is copied verbatim in front of the rendering of what follows it, whatever characters (`%` included) it holds |
| Template.PercentFreeNoPlaceholder | index.js:66 | no placeholder starts inside `%`-free text that is not followed by `%`, since every match has a `%` right after its `<` |
| Template.RenderSingle | index.js:66-67 | a template that is one placeholder renders to the value of its trimmed name |
| Template.RenderSlot | index.js:66-67 | `<%= name %>`, with any whitespace around `name`, renders to `data[name]`, or to the empty string when `name` is absent |
| Template.RenderTextThenSlot | index.js:65-69 | text without `%` followed by `<%= name %>` renders to the text, then the value of `name`, then the rendering of the rest |
| Template.RenderTwoSlots | index.js:65-69 | a template made of `%`-free text and two placeholders renders to the text with the two values in place of the placeholders |
| Template.RenderWithoutCloser | index.js:66 | a `<%=` with no `%>` after it is not a placeholder: a text without `%>` is returned unchanged |
| Template.RenderForbiddenName | index.js:66 | `<%=` n `%>` where n holds a `%` or a `>` is left untouched |
| Template.RenderSelfReference | index.js:66-67 | for any name whose value is its own placeholder, the template renders to itself: a substituted value is never expanded again |
| Json.EncodeTags | index.js:49-50 | the serialisation of a descriptor sequence is a JSON array literal: it opens with `[`, closes with `]`, and a non-empty one starts its first element with `{` |
| Json.ParseEncodedString | index.js:49-50 | reading back `JSON.stringify` of a string gives the string, and leaves the text after it untouched |
| Json.ParseEncodedAttribute | index.js:49-50 | reading back a serialised attribute gives the same name and value |
| Json.ParseEncodedAttributes | index.js:49-50 | reading back a serialised attribute object gives the same attributes in the same order |
| Json.ParseEncodedTag | index.js:49-50 | reading back a serialised tag descriptor gives the same tag name and attributes |
| Json.ParseEncodedTags | index.js:49-50 | reading back a serialised descriptor array gives the same descriptors in the same order, whatever text follows it |
| Json.DecodeEncodeTags | index.js:54-55 | decoding the serialisation of a descriptor sequence returns that sequence: nothing is reordered, dropped or merged |
| Json.EncodeTagsInjective | index.js:54-55 | different descriptor sequences never serialise to the same text |
| Json.EncodeTagsEmpty | index.js:49-50 | a sequence serialises to `[]` if and only if it is empty |
| ScriptText.TemplateTextPlain | index.js:5-28 | apart from its two placeholders, `injectorTemplate` contains no `%`, so nothing else in it can match |
| ScriptText.TemplateTextStarts | index.js:7-8 | the text after each placeholder starts with the `;` that ends its statement |
| Injector.ParseStringify | index.js:49-50 | `JSON.stringify` of a list reads back as that list, and `undefined` as a missing list |
| Injector.GenInjectorData | index.js:46-57 | each slot reads back as exactly its source list: `assetTags.styles`/`assetTags.scripts` when `assetTags` is present, whatever `head`/`body` hold, and `head`/`body` otherwise; a missing list stays `undefined` |
| Injector.GenInjectorDataEmptyAndMissing | index.js:46-57 | a slot is `[]` if and only if its source list is empty, and `undefined` if and only if its source list is missing |
| Injector.InjectorTemplateSlots | index.js:5-28 | `injectorTemplate` holds the `headTags` placeholder right after `var headTags = ` (line 7), the `bodyTags` placeholder right after `var bodyTags = ` (line 8), and no bare `<%=%>` |
| Injector.RenderInjectorTemplate | index.js:5-28 | rendering `injectorTemplate` replaces only the `headTags` placeholder of line 7 and the `bodyTags` placeholder of line 8, and copies every other character |
| Injector.InjectorContent | index.js:76-77 | rendering the injector template never fails, and the script holds each slot's string in place of its placeholder, or nothing for `undefined` |
| Injector.ReadSlotsEncoded | index.js:7-8 | two serialised descriptor lists between the fixed texts are read back as the two lists |
| Injector.ReadSlotsMissing | index.js:7-8 | when a slot is empty because its list is missing, the text after it is not an array, so reading the script fails |
| Injector.ScriptCarriesTags | index.js:46-77 | end to end: the script written for a hook payload carries exactly the selected head and body lists, in order |
| Injector.MissingListLeavesSlotEmpty | index.js:53-55 | a missing list leaves its slot empty (`var headTags = ;`), and the script no longer holds two arrays |
| Plugin.MergeOptions | index.js:82-86 | the configuration keeps every option with its own value and adds `filename`, which is `injector.js` only when the options do not mention it |
| Plugin.WebpackGenInjectorScript.constructor | index.js:82-87 | `config` is the merge of the options, or of `{}` when no options are given |
| Plugin.Resolve | index.js:38 | the resolved path ends with the file name, and a relative name is joined to the directory with `/` |
| Plugin.GetOutputPath | index.js:37-39 | the output path exists exactly when `config.filename` is a string, and is that name resolved against the output directory |
| Plugin.ScheduledWrite | index.js:94-100 | the handler schedules a write exactly when the output path resolves; the write goes to that path, and its text is the injector template with the serialised head and body lists in place of the placeholders |
| Plugin.ScheduledWriteCarriesTags | index.js:94-100 | for any configuration whose path resolves, the written script reads back as exactly the payload's head and body lists, in order |
| Plugin.ScheduledWriteMissingList | index.js:94-100 | for any configuration whose path resolves, a payload missing a list gets a script that does not hold two arrays |
| Plugin.DefaultOutputPath | index.js:82-86 | without a `filename` option the script goes to `<outputDir>/injector.js` |
| Plugin.CustomOutputPath | index.js:82-86 | a string `filename` option replaces the default |
| Plugin.UndefinedFilenameFails | index.js:82-86 | an explicit `filename: undefined` also replaces the default, and resolving the path then fails |
| Plugin.DefaultPluginWritesTags | index.js:94-100 | end to end: with the default configuration, the write goes to `<outputDir>/injector.js` and its script carries exactly the two selected lists |

## Left out

- `apply` (index.js:89-117): the hook registration with webpack and html-webpack-plugin, and
  the choice between the version 3 and version 4 hook APIs. It has no logic of its own. Both
  branches run the same handler, which is modelled by `Plugin.ScheduledWrite`.
- The ordering of the two callbacks: the write happens when the build is done, from the path
  and data captured when the tags hook fired. The model states what is written, not when.
- `fs.writeFileSync` (index.js:78): only the path and the content of the write are modelled.
- Plugin.Resolve: `path.resolve` is reduced to a join. It does not model normalisation of `.`
  and `..`, the working directory, or platform separators. Results are stated only for this
  join.
- Template.Lookup: lookups through the JavaScript prototype chain are not modelled. For
  example, `data["constructor"]` is a function in JavaScript but absent here. The data object
  is a map of strings.
- The browser side of the emitted script (index.js:10-26): DOM element creation. The script
  text is modelled, not its execution.
- Tags: a descriptor is a tag name and an ordered list of string attributes. Extra descriptor
  fields (html-webpack-plugin's `voidTag`, `meta`, boolean attribute values) are not modelled.
- Json: attributes are serialised in list order. JavaScript orders integer-like object keys
  first, and an object cannot hold a key twice. Neither is modelled.
- Json: characters are Unicode scalar values, so the lone-surrogate escapes of
  `JSON.stringify` cannot arise.
- Plugin.MergeOptions: option values are strings or `undefined`. Other JavaScript values of
  `filename`, such as numbers, are not modelled.
