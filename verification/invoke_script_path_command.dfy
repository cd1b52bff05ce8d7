/**
 The bridge from discovered script paths to host commands.

 `Register` builds a command from a script module's exports and adds it to the
 host; the `relativePath -> commandId` index records it so that
 `InvokeScriptPath` can find and run it, and `UnregisterInvocableCommands` can
 remove every command it added. The host's command registry is part of the
 bridge's state because `InvokeScriptPath` reads it back (`findCommand`).
 */
module InvokeScriptPathCommand {
  import opened Effects
  import opened Host
  import Paths
  import OrderedMap
  import InvokeScriptCommand

  const CommandIdPrefix := "invoke-script-file-"

  /** A command's plain `callback`: one exported by the script, or the one synthesized around its `invoke`. */
  datatype Callback =
    | ExportedCallback(outcome: Outcome)
    | InvokeWrapper(relativePath: string, outcome: Outcome)

  /** A command as added to the host. */
  datatype Command = Command(
    id: string,
    name: string,
    icon: string,
    callback: Option<Callback>,
    checkCallback: Option<CheckCallback>)

  /** The host's commands by id, and the bridge's index from relative script path to command id. */
  datatype Bridge = Bridge(commands: map<string, Command>, index: OrderedMap.Map<string, string>)

  /** The command ids the index holds. */
  function IndexedIds(index: OrderedMap.Map<string, string>): set<string>
  {
    set i | 0 <= i < |index| :: index[i].1
  }

  /** Every indexed command id names a command the host holds. */
  ghost predicate Tracked(b: Bridge)
  {
    OrderedMap.Valid(b.index) && IndexedIds(b.index) <= b.commands.Keys
  }

  /** The base command of `relativePath`: its id, the `play` icon and its display name. */
  function BaseCommand(relativePath: string): (c: Command)
    ensures c.icon == "play"
    ensures c.callback.None? && c.checkCallback.None?
  {
    Command(CommandIdPrefix + relativePath, "Invoke script: " + relativePath, "play", None, None)
  }

  /**
   `extractInvokeCommand`: an exported `invokeCommand` is spread over the base
   command, so every property it sets wins, `id` included; otherwise an
   exported `invoke` gets a synthesized callback; otherwise construction fails.
   */
  function ExtractInvokeCommand(relativePath: string, m: Module): (r: Result<Command>)
    ensures r.Failure? <==> m.invokeCommand.None? && m.invoke.None?
    ensures r.Failure? ==> r.error == relativePath + " does not export invoke() function"
  {
    var base := BaseCommand(relativePath);
    match m.invokeCommand
    case Some(x) =>
      Success(Command(
        x.id.GetOr(base.id),
        x.name.GetOr(base.name),
        x.icon.GetOr(base.icon),
        match x.callback
        case Some(o) => Some(ExportedCallback(o))
        case None => None,
        x.checkCallback))
    case None =>
      match m.invoke
      case Some(o) => Success(base.(callback := Some(InvokeWrapper(relativePath, o))))
      case None => Failure(relativePath + " does not export invoke() function")
  }

  /** Every property an exported `invokeCommand` sets wins over the base command's, `id` included. */
  lemma ExportedCommandOverridesBase(relativePath: string, m: Module)
    requires m.invokeCommand.Some?
    ensures var r := ExtractInvokeCommand(relativePath, m);
      var x := m.invokeCommand.value;
      var base := BaseCommand(relativePath);
      && r.Success?
      && r.value.id == x.id.GetOr(base.id)
      && r.value.name == x.name.GetOr(base.name)
      && r.value.icon == x.icon.GetOr(base.icon)
      && (r.value.callback.Some? <==> x.callback.Some?)
      && (x.callback.Some? ==> r.value.callback == Some(ExportedCallback(x.callback.value)))
      && r.value.checkCallback == x.checkCallback
  {
  }

  /** Without `invokeCommand`, an exported `invoke` yields the base command with a callback that runs it. */
  lemma InvokeIsWrapped(relativePath: string, m: Module)
    requires m.invokeCommand.None? && m.invoke.Some?
    ensures ExtractInvokeCommand(relativePath, m)
      == Success(BaseCommand(relativePath).(callback := Some(InvokeWrapper(relativePath, m.invoke.value))))
  {
  }

  /** `getScriptOrCommand`: loads the script at `relativePath` under the scripts folder, with the lookups it made. */
  function GetScriptOrCommand(app: App, scriptsFolder: string, relativePath: string): (Result<Module>, seq<Effect>)
  {
    var vaultPath := Paths.Join(scriptsFolder, relativePath);
    var resolution := ResolveLoadKey(app, vaultPath);
    match resolution.0
    case NotFound => (Failure("Script not found: '" + relativePath + "'."), resolution.1)
    case NotInvocable => (Failure("Script is not invocable: '" + relativePath + "'."), resolution.1)
    case Resolved(key) =>
      var loaded := resolution.1 + [ModuleLoaded(key)];
      match app.load(key)
      case LoadOk(m) => (Success(m), loaded)
      case LoadError(e) => (Failure(e), loaded)
  }

  /**
   The checks of `getScriptOrCommand`, in order: the script must exist under
   the scripts folder, a note must be flagged invocable, and a note's
   code-script name qualifies the loader key. Messages name the relative path.
   */
  lemma GetScriptOrCommandChecks(app: App, scriptsFolder: string, relativePath: string)
    ensures var vaultPath := Paths.Join(scriptsFolder, relativePath);
      var r := GetScriptOrCommand(app, scriptsFolder, relativePath);
      && (!app.pathExists(vaultPath) ==> r == (Failure("Script not found: '" + relativePath + "'."), []))
      && (app.pathExists(vaultPath) && app.isMarkdown(vaultPath) && !app.noteSettings(vaultPath).isInvocable ==>
            r == (Failure("Script is not invocable: '" + relativePath + "'."), [SettingsRead(vaultPath)]))
      && (ResolveLoadKey(app, vaultPath).0.Resolved? ==>
            var key := ResolveLoadKey(app, vaultPath).0.key;
            && r.1 == ResolveLoadKey(app, vaultPath).1 + [ModuleLoaded(key)]
            && r.0 == match app.load(key)
                      case LoadOk(m) => Success(m)
                      case LoadError(e) => Failure(e))
  {
  }

  /** What registering `relativePath` comes to; it depends on the host's answers only. */
  datatype Registration =
    | RequireFailed                 // `getScriptOrCommand` threw
    | MissingExport(error: string)  // `extractInvokeCommand` threw
    | Rejected(command: Command)    // `addCommand` threw
    | Accepted(command: Command)    // added and indexed

  function RegistrationOf(app: App, scriptsFolder: string, relativePath: string): Registration
  {
    var required := GetScriptOrCommand(app, scriptsFolder, relativePath).0;
    if required.Failure? then RequireFailed
    else
      match ExtractInvokeCommand(relativePath, required.value)
      case Failure(e) => MissingExport(e)
      case Success(c) => if app.acceptsCommand(c.id) then Accepted(c) else Rejected(c)
  }

  /**
   The bookkeeping of `register` once the host has answered: a failure of
   `getScriptOrCommand` or of `addCommand` is printed and leaves the bridge
   as it was; a missing export escapes, since `extractInvokeCommand` is
   called outside both `try` blocks. Only an added command is indexed.
   `lookups` are the effects of `getScriptOrCommand`, which come first.
   */
  function Apply(b: Bridge, relativePath: string, reg: Registration, lookups: seq<Effect>): (r: Step<Bridge>)
    ensures r.thrown.Some? <==> reg.MissingExport?
    ensures reg.MissingExport? ==> r.thrown == Some(reg.error) && r.effects == lookups
    ensures reg.Accepted? ==>
      && r.state.commands == b.commands[reg.command.id := reg.command]
      && r.state.index == OrderedMap.Set(b.index, relativePath, reg.command.id)
      && CommandAdded(reg.command.id) in r.effects
    ensures |lookups| <= |r.effects| && r.effects[..|lookups|] == lookups
    ensures !reg.Accepted? ==> r.state == b && forall e :: e in r.effects[|lookups|..] ==> !e.CommandAdded?
    ensures reg.RequireFailed? ==> r.effects[|lookups|..] == [PrintError("Error requiring script: " + relativePath)]
    ensures reg.Rejected? ==> r.effects[|lookups|..] == [PrintError("Error adding invokeCommand from " + relativePath)]
  {
    var r := match reg
      case RequireFailed => Step(b, lookups + [PrintError("Error requiring script: " + relativePath)], None)
      case MissingExport(e) => Step(b, lookups, Some(e))
      case Rejected(_) => Step(b, lookups + [PrintError("Error adding invokeCommand from " + relativePath)], None)
      case Accepted(c) =>
        Step(Bridge(b.commands[c.id := c], OrderedMap.Set(b.index, relativePath, c.id)), lookups + [CommandAdded(c.id)], None);
    assert r.effects[..|lookups|] == lookups;
    r
  }

  /**
   `new InvokeScriptPathCommand(plugin, relativePath).register()`, by the
   script's exports: a failed load is printed, a module without `invoke` or
   `invokeCommand` throws, and an extracted command is added and indexed
   unless the host rejects it, which is printed. The lookups come first.
   */
  function Register(b: Bridge, app: App, scriptsFolder: string, relativePath: string): (r: Step<Bridge>)
    ensures var got := GetScriptOrCommand(app, scriptsFolder, relativePath);
      && |got.1| <= |r.effects| && r.effects[..|got.1|] == got.1
      && (got.0.Failure? ==> r == Step(b, got.1 + [PrintError("Error requiring script: " + relativePath)], None))
      && (got.0.Success? && got.0.value.invokeCommand.None? && got.0.value.invoke.None? ==>
            r == Step(b, got.1, Some(relativePath + " does not export invoke() function")))
    ensures var got := GetScriptOrCommand(app, scriptsFolder, relativePath);
      got.0.Success? && ExtractInvokeCommand(relativePath, got.0.value).Success? ==>
        var c := ExtractInvokeCommand(relativePath, got.0.value).value;
        if app.acceptsCommand(c.id) then
          && r.state == Bridge(b.commands[c.id := c], OrderedMap.Set(b.index, relativePath, c.id))
          && r.effects == got.1 + [CommandAdded(c.id)]
          && r.thrown.None?
        else r == Step(b, got.1 + [PrintError("Error adding invokeCommand from " + relativePath)], None)
  {
    Apply(b, relativePath, RegistrationOf(app, scriptsFolder, relativePath), GetScriptOrCommand(app, scriptsFolder, relativePath).1)
  }

  /** The index changes at `relativePath` only, and only when the command was added. */
  lemma ApplyIndex(b: Bridge, relativePath: string, reg: Registration, lookups: seq<Effect>)
    ensures var r := Apply(b, relativePath, reg, lookups).state.index;
      && (forall p :: p != relativePath ==> OrderedMap.Get(r, p) == OrderedMap.Get(b.index, p))
      && OrderedMap.Get(r, relativePath) == if reg.Accepted? then Some(reg.command.id) else OrderedMap.Get(b.index, relativePath)
  {
  }

  /** A registration only adds its own command: the host's other commands do not affect it. */
  lemma ApplyFrame(c: map<string, Command>, index: OrderedMap.Map<string, string>, relativePath: string, reg: Registration, lookups: seq<Effect>)
    ensures var e := Apply(Bridge(map[], index), relativePath, reg, lookups);
      Apply(Bridge(c, index), relativePath, reg, lookups)
        == Step(Bridge(c + e.state.commands, e.state.index), e.effects, e.thrown)
  {
    match reg
    case Accepted(x) =>
      assert map[][x.id := x] == map[x.id := x];
      assert c + map[x.id := x] == c[x.id := x];
    case _ =>
      assert c + map[] == c;
  }

  /** `unregisterInvocableCommands`: every indexed command is removed from the host, in index order, and the index is cleared. */
  function UnregisterInvocableCommands(b: Bridge): (r: Step<Bridge>)
    ensures r.state.index == []
    ensures r.thrown.None?
    ensures r.state.commands == b.commands - IndexedIds(b.index)
    ensures |r.effects| == |b.index|
    ensures forall i :: 0 <= i < |b.index| ==> r.effects[i] == CommandRemoved(b.index[i].1)
  {
    var ids := OrderedMap.Values(b.index);
    Step(Bridge(b.commands - IndexedIds(b.index), []),
         seq(|ids|, i requires 0 <= i < |ids| => CommandRemoved(ids[i])),
         None)
  }

  /** A caught error's report: the printed error, then the notice. */
  function Failed(printed: string, notice: string): (es: seq<Effect>)
    ensures Count(es, IsNotice) == 1 && Count(es, IsPrintError) == 1
  {
    [PrintError(printed), Notice(notice)]
  }

  /** The effects of running a command's plain callback. */
  function RunCallback(relativePath: string, id: string, callback: Callback): (es: seq<Effect>)
    ensures |es| > 0 && es[0] == CallbackCalled(id)
    // an exported callback's error, and the wrapped `invoke`'s error, are each reported once
    ensures Count(es, IsNotice) == Count(es, IsPrintError) == (if callback.outcome.Throws? then 1 else 0)
  {
    var succeeded := ConsoleDebug(relativePath + " command executed successfully");
    match callback
    case ExportedCallback(o) =>
      (match o
       case Returns => [CallbackCalled(id), succeeded]
       case Throws(_) =>
         var failed := Failed("Error invoking " + relativePath + " command",
                              "Error invoking " + relativePath + " command. See console for details.");
         CountAppend([CallbackCalled(id)], failed, IsNotice);
         CountAppend([CallbackCalled(id)], failed, IsPrintError);
         [CallbackCalled(id)] + failed)
    case InvokeWrapper(scriptPath, o) =>
      // the synthesized callback starts `invoke` and returns before it settles, so the
      // caller's success line comes first and the script's own outcome is reported after it
      var started := [CallbackCalled(id), ScriptInvoked(scriptPath), succeeded];
      match o
      case Returns => started + [ConsoleDebug(scriptPath + " invocable script executed successfully")]
      case Throws(_) =>
        var failed := Failed("Error invoking " + scriptPath, "Error invoking " + scriptPath + ". See console for details.");
        CountAppend(started, failed, IsNotice);
        CountAppend(started, failed, IsPrintError);
        started + failed
  }

  /** The effects of running a command's `checkCallback`: check first, run only if the check passed. */
  function RunCheckCallback(relativePath: string, id: string, check: CheckCallback): (es: seq<Effect>)
    ensures |es| > 0 && es[0] == CheckCalled(id, true)
    ensures CheckCalled(id, false) in es <==> check.probe.ProbePasses?
    ensures check.probe.ProbeFails? ==> es == [CheckCalled(id, true), Notice(relativePath + " command check condition not met")]
    ensures Count(es, IsPrintError) ==
      (if check.probe.ProbeThrows? || (check.probe.ProbePasses? && check.run.Throws?) then 1 else 0)
    ensures Count(es, IsNotice) == (if check.probe.ProbePasses? && check.run.Returns? then 0 else 1)
    ensures forall e :: e in es ==> !e.CallbackCalled?
  {
    match check.probe
    case ProbeThrows(_) =>
      var failed := Failed("Error checking " + relativePath + " command check condition",
                           "Error checking " + relativePath + " command check condition. See console for details.");
      CountAppend([CheckCalled(id, true)], failed, IsNotice);
      CountAppend([CheckCalled(id, true)], failed, IsPrintError);
      [CheckCalled(id, true)] + failed
    case ProbeFails => [CheckCalled(id, true), Notice(relativePath + " command check condition not met")]
    case ProbePasses =>
      match check.run
      case Returns => [CheckCalled(id, true), CheckCalled(id, false), ConsoleDebug(relativePath + " command executed successfully")]
      case Throws(_) =>
        var called := [CheckCalled(id, true), CheckCalled(id, false)];
        var failed := Failed("Error invoking " + relativePath + " command",
                             "Error invoking " + relativePath + " command. See console for details.");
        CountAppend(called, failed, IsNotice);
        CountAppend(called, failed, IsPrintError);
        called + failed
  }

  /** The command `invokeScriptPath` would run for `relativePath`: an indexed, non-empty id the host still holds. */
  function FindCommand(b: Bridge, relativePath: string): (r: Option<Command>)
    ensures r.Some? <==>
      var id := OrderedMap.Get(b.index, relativePath);
      id.Some? && id.value != "" && id.value in b.commands
  {
    match OrderedMap.Get(b.index, relativePath)
    case None => None
    case Some(id) => if id != "" && id in b.commands then Some(b.commands[id]) else None
  }

  /**
   `invokeScriptPath`: fails when no command is registered for the path;
   otherwise a `checkCallback` takes precedence over `callback`, and every
   error of either is caught and reported.
   */
  function InvokeScriptPath(b: Bridge, relativePath: string): (r: Report)
    ensures |r.effects| > 0 && r.effects[0] == ConsoleDebug("Invoking script: " + relativePath + ".")
    ensures FindCommand(b, relativePath).None? ==>
      r == Report([ConsoleDebug("Invoking script: " + relativePath + ".")],
                  Some("No command registered for script path: " + relativePath))
    ensures FindCommand(b, relativePath).Some? ==>
      var c := FindCommand(b, relativePath).value;
      var id := OrderedMap.Get(b.index, relativePath).value;
      && r.thrown.None?
      && (c.checkCallback.Some? ==>
            && r.effects[1..] == RunCheckCallback(relativePath, id, c.checkCallback.value)
            && CallbackCalled(id) !in r.effects)
      && (c.checkCallback.None? && c.callback.Some? ==> r.effects[1..] == RunCallback(relativePath, id, c.callback.value))
      && (c.checkCallback.None? && c.callback.None? ==> |r.effects| == 1)
  {
    var start := [ConsoleDebug("Invoking script: " + relativePath + ".")];
    match FindCommand(b, relativePath)
    case None => Report(start, Some("No command registered for script path: " + relativePath))
    case Some(c) =>
      var id := OrderedMap.Get(b.index, relativePath).value;
      match c.checkCallback
      case Some(check) =>
        var es := RunCheckCallback(relativePath, id, check);
        assert (start + es)[1..] == es;
        Report(start + es, None)
      case None =>
        match c.callback
        case Some(callback) =>
          var es := RunCallback(relativePath, id, callback);
          assert (start + es)[1..] == es;
          Report(start + es, None)
        case None => Report(start, None)
  }

  /** The base command is the one-shot invoke command of the same script file. */
  lemma BaseCommandIsInvokeScriptCommand(relativePath: string)
    ensures var info := InvokeScriptCommand.InvokeScriptCommandInfo(relativePath);
      BaseCommand(relativePath).id == info.id && BaseCommand(relativePath).name == info.name
  {
  }

  /** Registering keeps every indexed command id backed by a host command. */
  lemma ApplyKeepsTracked(b: Bridge, relativePath: string, reg: Registration, lookups: seq<Effect>)
    requires Tracked(b)
    ensures Tracked(Apply(b, relativePath, reg, lookups).state)
  {
    var r := Apply(b, relativePath, reg, lookups).state;
    if reg.Accepted? {
      var id := reg.command.id;
      OrderedMap.SetValid(b.index, relativePath, id);
      OrderedMap.SetEntries(b.index, relativePath, id);
      forall i | 0 <= i < |r.index|
        ensures r.index[i].1 in r.commands
      {
        assert r.index[i] in OrderedMap.Set(b.index, relativePath, id);
      }
    }
  }

  /** A command the host accepted is the one `invokeScriptPath` then runs for its path, unless its id is empty. */
  lemma RegisteredCommandIsFound(b: Bridge, app: App, scriptsFolder: string, relativePath: string)
    requires RegistrationOf(app, scriptsFolder, relativePath).Accepted?
    requires RegistrationOf(app, scriptsFolder, relativePath).command.id != ""
    ensures FindCommand(Register(b, app, scriptsFolder, relativePath).state, relativePath)
      == Some(RegistrationOf(app, scriptsFolder, relativePath).command)
  {
    ApplyIndex(b, relativePath, RegistrationOf(app, scriptsFolder, relativePath), GetScriptOrCommand(app, scriptsFolder, relativePath).1);
  }

  /** After `unregisterInvocableCommands`, no script path runs anything. */
  lemma NothingRunsAfterUnregister(b: Bridge, relativePath: string)
    ensures var r := InvokeScriptPath(UnregisterInvocableCommands(b).state, relativePath);
      && r.thrown == Some("No command registered for script path: " + relativePath)
      && |r.effects| == 1
  {
  }
}
