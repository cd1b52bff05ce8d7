/**
 The host application as the script runtime sees it: a vault that answers
 existence checks, folder listings and front-matter queries, a module loader,
 and a command registry that may reject a command. Each answer is an oracle
 field of `App`; the runtime's components are pure functions of these answers.

 Also here: what a loaded script module exports, and the resolution of a
 script path to the key under which the module loader loads it, which the
 one-shot invoke and the command bridge perform alike.
 */
module Host {
  import opened Effects

  /** The code-script settings read from a note's front matter. An empty name means none is set. */
  datatype NoteSettings = NoteSettings(isInvocable: bool, invocableCodeScriptName: string)

  /** What `checkCallback(true)` does. */
  datatype Probe = ProbePasses | ProbeFails | ProbeThrows(error: string)

  /** A command's `checkCallback`: its answer when checking, and what running it does. */
  datatype CheckCallback = CheckCallback(probe: Probe, run: Outcome)

  /** An exported `invokeCommand` object: the command properties it sets itself. */
  datatype CommandExport = CommandExport(
    id: Option<string>,
    name: Option<string>,
    icon: Option<string>,
    callback: Option<Outcome>,
    checkCallback: Option<CheckCallback>)

  /**
   The exports of a loaded script module that the runtime looks at: `invoke`
   (what calling it does), a startup script's optional `cleanup`, and an
   optional `invokeCommand` object.
   */
  datatype Module = Module(invoke: Option<Outcome>, cleanup: Option<Outcome>, invokeCommand: Option<CommandExport>)

  datatype LoadResult = LoadOk(exports: Module) | LoadError(error: string)

  /**
   A folder as the vault adapter lists it: the paths of its files, and of its
   subfolders each with its own listing.
   */
  datatype Dir = Dir(files: seq<string>, folders: seq<Sub>)
  datatype Sub = Sub(path: string, dir: Dir)

  /** The host's answers. */
  datatype App = App(
    pathExists: string -> bool,         // the vault's `exists(path)`
    isMarkdown: string -> bool,         // `isMarkdownFile(app, path)`
    noteSettings: string -> NoteSettings, // `getCodeScriptToolkitNoteSettings(app, path)`
    list: string -> Dir,                // the adapter's recursive listing of a folder
    load: string -> LoadResult,         // `requireVaultScriptAsync(key)`
    acceptsCommand: string -> bool)     // whether `addCommand` succeeds for a command id

  /** Appended to a note's path to select one named code script inside it. */
  const CodeScriptNameMarker := "?codeScriptName="

  /** The loader key of the script at `path`, qualified by a code-script name when one is set. */
  function LoadKey(path: string, codeScriptName: string): (key: string)
    ensures codeScriptName == "" ==> key == path
    ensures codeScriptName != "" ==> |key| > |path| && key[..|path|] == path
  {
    if codeScriptName == "" then path else path + CodeScriptNameMarker + codeScriptName
  }

  /** Two code scripts of one note never share a loader key (and so never a cached module). */
  lemma LoadKeysDistinct(path: string, name1: string, name2: string)
    requires name1 != name2
    ensures LoadKey(path, name1) != LoadKey(path, name2)
  {
    if name1 != "" && name2 != "" {
      var k1 := LoadKey(path, name1);
      var k2 := LoadKey(path, name2);
      var n := |path + CodeScriptNameMarker|;
      assert k1[n..] == name1;
      assert k2[n..] == name2;
    }
  }

  datatype Resolution = Resolved(key: string) | NotFound | NotInvocable

  /**
   The checks both invoke paths make before loading, in their order: the path
   must exist; a markdown note must be flagged invocable, and its code-script
   name, when set, qualifies the key. Returns the settings read it performed.
   */
  function ResolveLoadKey(app: App, path: string): (r: (Resolution, seq<Effect>))
    ensures r.0.NotFound? <==> !app.pathExists(path)
    ensures r.0.NotFound? ==> r.1 == []
    ensures r.0.NotInvocable? <==> app.pathExists(path) && app.isMarkdown(path) && !app.noteSettings(path).isInvocable
    ensures r.1 == if app.pathExists(path) && app.isMarkdown(path) then [SettingsRead(path)] else []
    ensures r.0.Resolved? ==> r.0.key == LoadKey(path, if app.isMarkdown(path) then app.noteSettings(path).invocableCodeScriptName else "")
  {
    if !app.pathExists(path) then (NotFound, [])
    else if app.isMarkdown(path) then
      var settings := app.noteSettings(path);
      if !settings.isInvocable then (NotInvocable, [SettingsRead(path)])
      else (Resolved(LoadKey(path, settings.invocableCodeScriptName)), [SettingsRead(path)])
    else (Resolved(path), [])
  }
}
