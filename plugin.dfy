/**
 * The plugin object of index.js: its configuration, the output path it computes and the file
 * it writes once the build is done (index.js:37-39, 76-79, 81-120).
 */
module Plugin {
  import opened Wrappers
  import opened Tags
  import Injector
  import Template
  import ScriptText

  /** An option value as `Object.assign` copies it: an explicit `undefined`, or a string. */
  datatype Prop = Undefined | Str(value: string)

  /** The default output file name. */
  const DefaultFilename: string := "injector.js"

  /** The options object, with the `{}` default for a missing argument. */
  function OptionsOrDefault(options: Option<map<string, Prop>>): map<string, Prop> {
    if options.Some? then options.value else map[]
  }

  /**
   * `Object.assign({filename: 'injector.js'}, options)`: every option is kept with its own
   * value, and `filename` is the default only when the options do not mention it.
   */
  function MergeOptions(options: map<string, Prop>): (config: map<string, Prop>)
    ensures config.Keys == options.Keys + {"filename"}
    ensures forall k :: k in options ==> config[k] == options[k]
    ensures "filename" !in options ==> config["filename"] == Str(DefaultFilename)
  {
    map["filename" := Str(DefaultFilename)] + options
  }

  /** Errors a hook handler can raise. */
  datatype PluginError =
    | FilenameNotString   // `path.resolve` refuses an `undefined` file name
    | RenderFailed(e: Template.RenderError)

  /**
   * `path.resolve(dir, name)` reduced to a join: an absolute `name` wins, an empty one
   * leaves `dir`; no normalisation and no working directory.
   */
  function Resolve(dir: string, name: string): (r: string)
    ensures name != [] ==> |name| <= |r| && r[|r| - |name|..] == name
    ensures name != [] && name[0] != '/' ==> r == dir + "/" + name
  {
    if name == [] then dir
    else if name[0] == '/' then name
    else dir + "/" + name
  }

  /** `getOutputPath`: the file name of the configuration resolved against the output directory. */
  function GetOutputPath(outputDir: string, config: map<string, Prop>): (r: Result<string, PluginError>)
    ensures r.Ok? <==> "filename" in config && config["filename"].Str?
    ensures r.Ok? ==> r.value == Resolve(outputDir, config["filename"].value)
  {
    if "filename" in config && config["filename"].Str? then Ok(Resolve(outputDir, config["filename"].value))
    else Err(FilenameNotString)
  }

  /** The file `writeInjectorScript` writes: where, and with what text. */
  datatype Write = Write(path: string, content: string)

  /**
   * What the alter-asset-tags handler arranges: the output path and the injector data are
   * computed when the hook fires, and the script is written from them when the build is done.
   * A write happens exactly when the path resolves; it goes to that path, and its text is the
   * injector template with the serialised head and body lists (nothing for a missing one).
   */
  function ScheduledWrite(outputDir: string, config: map<string, Prop>, payload: Injector.HookPayload)
    : (r: Result<Write, PluginError>)
    ensures r.Ok? <==> GetOutputPath(outputDir, config).Ok?
    ensures r.Ok? ==> r.value.path == GetOutputPath(outputDir, config).value
    ensures r.Ok? ==>
              r.value.content
              == ScriptText.HeadPrefix + Injector.OrEmpty(Injector.Stringify(Injector.HeadSource(payload)))
                 + ScriptText.BodyInfix + Injector.OrEmpty(Injector.Stringify(Injector.BodySource(payload)))
                 + ScriptText.ScriptSuffix
  {
    match GetOutputPath(outputDir, config)
    case Err(e) => Err(e)
    case Ok(filePath) =>
      var data := Injector.GenInjectorData(payload);
      match Injector.InjectorContent(data)
      case Err(e) => Err(RenderFailed(e))
      case Ok(content) => Ok(Write(filePath, content))
  }

  /**
   * For any configuration whose path resolves, a payload with both lists gets a write whose
   * script reads back as exactly those lists, head then body, in order.
   */
  lemma ScheduledWriteCarriesTags(outputDir: string, config: map<string, Prop>,
                                  p: Injector.HookPayload, heads: seq<TagDescriptor>, bodies: seq<TagDescriptor>)
    requires GetOutputPath(outputDir, config).Ok?
    requires Injector.HeadSource(p) == Some(heads) && Injector.BodySource(p) == Some(bodies)
    ensures var r := ScheduledWrite(outputDir, config, p);
      && r.Ok?
      && r.value.path == GetOutputPath(outputDir, config).value
      && Injector.ReadScript(r.value.content) == Some((heads, bodies))
  {
    Injector.ScriptCarriesTags(p, heads, bodies);
  }

  /** For any configuration, a payload missing a list gets a script that does not hold two arrays. */
  lemma ScheduledWriteMissingList(outputDir: string, config: map<string, Prop>, p: Injector.HookPayload)
    requires GetOutputPath(outputDir, config).Ok?
    requires Injector.HeadSource(p).None? || Injector.BodySource(p).None?
    ensures var r := ScheduledWrite(outputDir, config, p);
      && r.Ok?
      && Injector.ReadScript(r.value.content) == None
  {
    Injector.MissingListLeavesSlotEmpty(p);
  }

  /** The plugin instance; its configuration is fixed by the constructor. */
  class WebpackGenInjectorScript {
    const config: map<string, Prop>

    constructor(options: Option<map<string, Prop>>)
      ensures config == MergeOptions(OptionsOrDefault(options))
    {
      config := MergeOptions(OptionsOrDefault(options));
    }
  }

  /** Without options the script goes to `injector.js` in the output directory. */
  lemma DefaultOutputPath(outputDir: string, options: Option<map<string, Prop>>)
    requires options.None? || "filename" !in options.value
    ensures GetOutputPath(outputDir, MergeOptions(OptionsOrDefault(options)))
         == Ok(outputDir + "/" + DefaultFilename)
  {
  }

  /** A string `filename` option replaces the default. */
  lemma CustomOutputPath(outputDir: string, options: map<string, Prop>, name: string)
    requires "filename" in options && options["filename"] == Str(name)
    ensures GetOutputPath(outputDir, MergeOptions(options)) == Ok(Resolve(outputDir, name))
  {
  }

  /** An explicit `filename: undefined` also replaces the default, and resolving then fails. */
  lemma UndefinedFilenameFails(outputDir: string, options: map<string, Prop>)
    requires "filename" in options && options["filename"] == Undefined
    ensures GetOutputPath(outputDir, MergeOptions(options)) == Err(FilenameNotString)
  {
  }

  /**
   * End to end: a plugin built without a `filename` option, given a payload with both lists,
   * schedules a write of `injector.js` whose script reads back as exactly those lists.
   */
  lemma DefaultPluginWritesTags(outputDir: string, options: Option<map<string, Prop>>,
                                p: Injector.HookPayload, heads: seq<TagDescriptor>, bodies: seq<TagDescriptor>)
    requires options.None? || "filename" !in options.value
    requires Injector.HeadSource(p) == Some(heads) && Injector.BodySource(p) == Some(bodies)
    ensures var r := ScheduledWrite(outputDir, MergeOptions(OptionsOrDefault(options)), p);
      && r.Ok?
      && r.value.path == outputDir + "/" + DefaultFilename
      && Injector.ReadScript(r.value.content) == Some((heads, bodies))
  {
    DefaultOutputPath(outputDir, options);
    ScheduledWriteCarriesTags(outputDir, MergeOptions(OptionsOrDefault(options)), p, heads, bodies);
  }
}
