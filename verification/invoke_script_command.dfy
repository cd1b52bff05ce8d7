/**
 The one-shot invocation of a script by vault path (`invoke`), used by the
 per-file invoke command and for the startup script, and the identity of that
 command.

 `invoke` never lets an error escape: whichever check fails, or whatever the
 loader or the script throws, is caught and reported as one notice and one
 printed error. The model returns the caught error's message as `caught`.
 */
module InvokeScriptCommand {
  import opened Effects
  import opened Host

  const CommandIdPrefix := "invoke-script-file-"

  /** The id, name and icon a command is registered with. */
  datatype CommandInfo = CommandInfo(id: string, name: string, icon: string)

  /** The command that invokes the script at `scriptFile` (relative to the scripts folder). */
  function InvokeScriptCommandInfo(scriptFile: string): (c: CommandInfo)
    ensures c.icon == "play"
    ensures |c.id| >= |CommandIdPrefix| && c.id[..|CommandIdPrefix|] == CommandIdPrefix
  {
    CommandInfo(CommandIdPrefix + scriptFile, "Invoke script: " + scriptFile, "play")
  }

  /** The script file a command id of this form names. */
  function ScriptFileOfCommandId(id: string): string
    requires |id| >= |CommandIdPrefix|
  {
    id[|CommandIdPrefix|..]
  }

  /** Command ids and script files are in one-to-one correspondence. */
  lemma CommandIdRoundTrip(scriptFile: string)
    ensures ScriptFileOfCommandId(InvokeScriptCommandInfo(scriptFile).id) == scriptFile
    ensures InvokeScriptCommandInfo(scriptFile).name == "Invoke script: " + scriptFile
  {
    assert (CommandIdPrefix + scriptFile)[|CommandIdPrefix|..] == scriptFile;
  }

  /** How messages name the script. */
  function Label(isStartup: bool): (s: string)
    ensures s == "startup script" <==> isStartup
    ensures !isStartup ==> s == "script"
  {
    if isStartup then "startup script" else "script"
  }

  datatype Invocation = Invocation(effects: seq<Effect>, caught: Option<string>)

  /** The report of a caught error: one notice, then the printed error. */
  function Report(scriptString: string, key: string): (es: seq<Effect>)
    ensures Count(es, IsNotice) == 1 && Count(es, IsPrintError) == 1
  {
    [Notice("Error invoking " + scriptString + " " + key + "\nSee console for details..."),
     PrintError("Error invoking " + scriptString + " " + key)]
  }

  /** Loading the resolved key and running the module's `invoke`. */
  function LoadAndRun(app: App, scriptString: string, key: string): (r: Invocation)
    ensures |r.effects| > 0 && r.effects[0] == ModuleLoaded(key)
    ensures r.caught.Some? ==> Count(r.effects, IsNotice) == 1 && Count(r.effects, IsPrintError) == 1
    ensures r.caught.None? ==> Count(r.effects, IsNotice) == 0 && Count(r.effects, IsPrintError) == 0
  {
    var attempt := Attempt(app, key);
    var tail := if attempt.1.Some? then Report(scriptString, key)
                else [ConsoleDebug(scriptString + " " + key + " executed successfully")];
    CountAppend(attempt.0, tail, IsNotice);
    CountAppend(attempt.0, tail, IsPrintError);
    Invocation(attempt.0 + tail, attempt.1)
  }

  /** Loading the module and calling its `invoke`: what was called, and the error caught. */
  function Attempt(app: App, key: string): (r: (seq<Effect>, Option<string>))
    ensures |r.0| > 0 && r.0[0] == ModuleLoaded(key)
    ensures Count(r.0, IsNotice) == 0 && Count(r.0, IsPrintError) == 0
  {
    var loaded := [ModuleLoaded(key)];
    match app.load(key)
    case LoadError(e) => (loaded, Some(e))
    case LoadOk(m) =>
      match m.invoke
      case None => (loaded, Some(key + " does not export invoke() function"))
      case Some(Throws(e)) => (loaded + [ScriptInvoked(key)], Some(e))
      case Some(Returns) => (loaded + [ScriptInvoked(key)], None)
  }


  /** Only a module exporting `invoke` is run, and the run fails unless the module loads and `invoke` returns. */
  lemma LoadAndRunRuns(app: App, scriptString: string, key: string)
    ensures var r := LoadAndRun(app, scriptString, key);
      && (ScriptInvoked(key) in r.effects <==> app.load(key).LoadOk? && app.load(key).exports.invoke.Some?)
      && (app.load(key).LoadOk? && app.load(key).exports.invoke.None? ==>
            r.caught == Some(key + " does not export invoke() function"))
      && (r.caught.None? <==> app.load(key).LoadOk? && app.load(key).exports.invoke == Some(Returns))
  {
  }

  /** The checks, the load and the run of `invoke`, after its opening debug line. */
  function CheckLoadAndRun(app: App, scriptPath: string, scriptString: string): (r: Invocation)
    ensures r.caught.Some? ==> Count(r.effects, IsNotice) == 1 && Count(r.effects, IsPrintError) == 1
    ensures r.caught.None? ==> Count(r.effects, IsNotice) == 0 && Count(r.effects, IsPrintError) == 0
    ensures !app.pathExists(scriptPath) ==>
      && r.caught == Some("Script not found: '" + scriptPath + "'.")
      && forall e :: e in r.effects ==> !e.SettingsRead? && !e.ModuleLoaded?
    ensures app.pathExists(scriptPath) && app.isMarkdown(scriptPath) && !app.noteSettings(scriptPath).isInvocable ==>
      && r.caught == Some("Script is not invocable: '" + scriptPath + "'.")
      && forall e :: e in r.effects ==> !e.ModuleLoaded?
  {
    var resolution := ResolveLoadKey(app, scriptPath);
    var lookups := resolution.1;
    assert Count(lookups, IsNotice) == 0 && Count(lookups, IsPrintError) == 0;
    match resolution.0
    case NotFound =>
      var report := Report(scriptString, scriptPath);
      CountAppend(lookups, report, IsNotice);
      CountAppend(lookups, report, IsPrintError);
      Invocation(lookups + report, Some("Script not found: '" + scriptPath + "'."))
    case NotInvocable =>
      var report := Report(scriptString, scriptPath);
      CountAppend(lookups, report, IsNotice);
      CountAppend(lookups, report, IsPrintError);
      Invocation(lookups + report, Some("Script is not invocable: '" + scriptPath + "'."))
    case Resolved(key) =>
      var run := LoadAndRun(app, scriptString, key);
      CountAppend(lookups, run.effects, IsNotice);
      CountAppend(lookups, run.effects, IsPrintError);
      Invocation(lookups + run.effects, run.caught)
  }

  /** `invoke(plugin, scriptPath, isStartup)`. */
  function Invoke(app: App, scriptPath: string, isStartup: bool): (r: Invocation)
    ensures |r.effects| > 0 && r.effects[0] == ConsoleDebug("Invoking " + Label(isStartup) + ": " + scriptPath + ".")
    // a failure is reported by exactly one notice and one printed error; a success by neither
    ensures r.caught.Some? ==> Count(r.effects, IsNotice) == 1 && Count(r.effects, IsPrintError) == 1
    ensures r.caught.None? ==> Count(r.effects, IsNotice) == 0 && Count(r.effects, IsPrintError) == 0
    // a missing file fails before any front matter is read or any module loaded
    ensures !app.pathExists(scriptPath) ==>
      && r.caught == Some("Script not found: '" + scriptPath + "'.")
      && forall e :: e in r.effects ==> !e.SettingsRead? && !e.ModuleLoaded?
    // a note not flagged invocable fails before any module is loaded
    ensures app.pathExists(scriptPath) && app.isMarkdown(scriptPath) && !app.noteSettings(scriptPath).isInvocable ==>
      && r.caught == Some("Script is not invocable: '" + scriptPath + "'.")
      && forall e :: e in r.effects ==> !e.ModuleLoaded?
  {
    var scriptString := Label(isStartup);
    var start := [ConsoleDebug("Invoking " + scriptString + ": " + scriptPath + ".")];
    var rest := CheckLoadAndRun(app, scriptPath, scriptString);
    CountAppend(start, rest.effects, IsNotice);
    CountAppend(start, rest.effects, IsPrintError);
    Invocation(start + rest.effects, rest.caught)
  }

  /**
   Once the checks pass, the loader is asked for the (possibly qualified) key,
   and only a module exporting `invoke` is run.
   */
  lemma InvokeLoadsResolvedKey(app: App, scriptPath: string, isStartup: bool)
    requires ResolveLoadKey(app, scriptPath).0.Resolved?
    ensures var key := ResolveLoadKey(app, scriptPath).0.key;
      var r := Invoke(app, scriptPath, isStartup);
      && ModuleLoaded(key) in r.effects
      && (ScriptInvoked(key) in r.effects <==> app.load(key).LoadOk? && app.load(key).exports.invoke.Some?)
      && (app.load(key).LoadOk? && app.load(key).exports.invoke.None? ==>
            r.caught == Some(key + " does not export invoke() function"))
      && (r.caught.None? <==> app.load(key).LoadOk? && app.load(key).exports.invoke == Some(Returns))
  {
    var key := ResolveLoadKey(app, scriptPath).0.key;
    var scriptString := Label(isStartup);
    var lookups := ResolveLoadKey(app, scriptPath).1;
    var run := LoadAndRun(app, scriptString, key);
    LoadAndRunRuns(app, scriptString, key);
    var start := [ConsoleDebug("Invoking " + scriptString + ": " + scriptPath + ".")];
    assert Invoke(app, scriptPath, isStartup).effects == start + (lookups + run.effects);
    assert run.effects[0] in start + (lookups + run.effects);
    if ScriptInvoked(key) in run.effects {
      assert ScriptInvoked(key) in start + (lookups + run.effects);
    }
  }
}
