# CodeScript Toolkit script runtime, modelled in Dafny

This project models the script runtime of the CodeScript Toolkit plugin for
Obsidian: the part that finds the scripts in a vault, turns them into
commands, runs them, and manages the long-lived things scripts leave behind.

The model covers seven pieces of the plugin:

- **Discovery and the registration pass** (`Script`). The invocable-scripts
  folder is walked level by level. At each level the eligible files come
  first, by sorted base name, then each subfolder, depth first. A file is
  eligible when its note is flagged invocable or its name ends in a script
  extension, ignoring case. The registration pass removes the commands of
  the previous pass, then registers every discovered script in order.
- **The startup-script slot** (`Script`). A module loaded at start-up is kept
  until it is cleaned up; a reload is a cleanup followed by an invoke.
- **The script chooser** (`Script`). It offers the discovered scripts, or a
  single `Error:` item saying why there are none. Picking an `Error:` item
  does nothing.
- **The per-path command bridge** (`InvokeScriptPathCommand`). A script
  becomes a command: its own exported `invokeCommand`, or a command wrapping
  its `invoke`. An index from script path to command id lets the chooser run
  the command of a path.
- **The one-shot invoke** (`InvokeScriptCommand`). It checks, loads and runs
  a script by vault path, and reports every failure with one notice and one
  printed error.
- **The temporary-plugin registry** (`TempPluginRegistry`). Plugin classes
  registered at run time are loaded, wrapped so that unloading also cleans
  up their command and style, and kept in one map.
- **The desktop folder watcher** (`ScriptFolderWatcher`). A change stops the
  watch, re-runs the pass and restarts the watch.

## How the model works

Every operation is a pure function that returns three things:

- the new state (the command index, the startup slot, the registry map, the
  watcher handle);
- the trace of effects it emitted: notices, console lines, printed errors,
  commands and styles added or removed, and calls into script code;
- the error that escapes it, if any.

Shared building blocks:

- `Effects`: the effect trace.
- `OrderedMap`: a JavaScript `Map` with its insertion order.
- `Sorting`: a sort under an abstract `localeCompare`.
- `Paths`: join, base name and lower-casing.

The host is one record of oracles (`Host.App`). It answers:

- whether a path exists;
- whether it is a markdown note, and what its note settings are;
- the recursive folder listing;
- what loading a module key gives;
- whether adding a command succeeds.

What a script does when called is data too. Its `invoke`, `cleanup`,
exported callbacks and a temp plugin's `load`/`unload` each either return or
throw.

## Sharp edges of the code

- A script that exports neither `invoke` nor `invokeCommand` makes `register`
  throw, outside both of its `try` blocks. The error ends the whole
  registration pass, and the scripts after it are not registered
  (`Script.MissingExportAbortsPass`, `Script.MissingExportAbortsRegistration`).
- Unloading a temporary plugin twice is not a no-op. The wrapped `unload`
  runs the original `unload` again and repeats the "Unregistered" notice
  (`TempPluginRegistry.WrappedUnloadRepeats`). Through the registry, a
  second unregistering only reports that the plugin was not registered
  (`TempPluginRegistry.UnregisterTwice`).
- A temporary plugin whose load failed stays in the registry, unwrapped.
  Unregistering it only calls its original `unload`
  (`TempPluginRegistry.FailedLoadStaysRegistered`).
- The startup slot is filled before `invoke` runs, so a throwing `invoke`
  leaves it `Loaded`. A throwing `cleanup` also leaves it `Loaded`, so the
  next invoke fails with "Startup script already invoked".
- A missing scripts folder makes the watcher emit a notice and a
  `console.error`.

Two further behaviours of the code are stated as lemmas:

- A discovered script whose relative path itself starts with `Error:` is
  offered by the chooser but never run (`Script.PickedScriptIsInvoked`).
- An anonymous temporary plugin cannot be unregistered by the empty class
  name it carries (`TempPluginRegistry.EmptyNameNeverRegistered`).

## Model

| member | source | states |
|---|---|---|
| Host.LoadKey | src/Commands/InvokeScriptCommand.ts:55-57 | an unnamed code script loads under its path; a named one under a strictly longer key that starts with the path |
| Host.LoadKeysDistinct | src/Commands/InvokeScriptCommand.ts:55-57 | two code-script names of one note never share a loader key |
| Host.ResolveLoadKey | src/Commands/InvokeScriptCommand.ts:46-58 | not found iff the path is missing (with no settings read); not invocable iff an existing markdown note is not flagged; settings are read exactly for existing markdown notes; the key is qualified by the note's code-script name |
| InvokeScriptCommand.InvokeScriptCommandInfo | src/Commands/InvokeScriptCommand.ts:26-34 | the per-file command has the `play` icon and an id starting with `invoke-script-file-` |
| InvokeScriptCommand.CommandIdRoundTrip | src/Commands/InvokeScriptCommand.ts:26-34 | the script file is recovered from the command id; the name is `Invoke script: ` plus the file |
| InvokeScriptCommand.Label | src/Commands/InvokeScriptCommand.ts:43 | messages say `startup script` iff the invocation is the startup one, otherwise `script` |
| InvokeScriptCommand.Report | src/Commands/InvokeScriptCommand.ts:66-70 | a caught error is reported by exactly one notice and one printed error |
| InvokeScriptCommand.LoadAndRun | src/Commands/InvokeScriptCommand.ts:59-70 | the module is loaded first; a failure is reported once by notice and once by printed error, a success by neither |
| InvokeScriptCommand.LoadAndRunRuns | src/Commands/InvokeScriptCommand.ts:59-65 | `invoke` is called iff the module loads and exports it; a missing export fails with "does not export invoke() function"; success iff `invoke` returns |
| InvokeScriptCommand.CheckLoadAndRun | src/Commands/InvokeScriptCommand.ts:45-70 | a missing path fails before any settings read or load; a non-invocable note fails before any load; every failure is reported once each way |
| InvokeScriptCommand.Invoke | src/Commands/InvokeScriptCommand.ts:41-71 | the debug line comes first; nothing escapes; failures are reported once each way and successes not at all; the check order holds |
| InvokeScriptCommand.InvokeLoadsResolvedKey | src/Commands/InvokeScriptCommand.ts:55-65 | once the checks pass, the resolved key is loaded, and only a module exporting `invoke` is run |
| InvokeScriptPathCommand.BaseCommand | src/Commands/InvokeScriptPathCommand.ts:57-62 | the base command has the `play` icon and no callbacks |
| InvokeScriptPathCommand.ExtractInvokeCommand | src/Commands/InvokeScriptPathCommand.ts:56-89 | extraction fails iff the module exports neither `invokeCommand` nor `invoke`, with the "does not export invoke() function" message |
| InvokeScriptPathCommand.ExportedCommandOverridesBase | src/Commands/InvokeScriptPathCommand.ts:64-69 | an exported `invokeCommand` wins over `invoke`; each field it sets overrides the base field and the others keep the base values |
| InvokeScriptPathCommand.InvokeIsWrapped | src/Commands/InvokeScriptPathCommand.ts:71-86 | without `invokeCommand`, an exported `invoke` becomes the base command with a wrapping callback |
| InvokeScriptPathCommand.GetScriptOrCommandChecks | src/Commands/InvokeScriptPathCommand.ts:141-158 | the path is taken under the scripts folder; "Script not found" before any settings read; "Script is not invocable" for an unflagged note; otherwise the qualified key is loaded |
| InvokeScriptPathCommand.Apply | src/Commands/InvokeScriptPathCommand.ts:33-54 | only a missing export escapes, with nothing printed; a failed require or a rejected `addCommand` prints its error and changes nothing; an added command is stored and indexed by path |
| InvokeScriptPathCommand.ApplyIndex | src/Commands/InvokeScriptPathCommand.ts:47-53 | the index changes only at the registered path, and only when the command was added |
| InvokeScriptPathCommand.ApplyFrame | src/Commands/InvokeScriptPathCommand.ts:47-50 | a registration only adds its own command; the host's other commands do not affect it |
| InvokeScriptPathCommand.ApplyKeepsTracked | src/Commands/InvokeScriptPathCommand.ts:47-53 | every indexed command id stays backed by a host command |
| InvokeScriptPathCommand.Register | src/Commands/InvokeScriptPathCommand.ts:33-89 | by the script's exports: a failed load prints "Error requiring script" and changes nothing; neither export throws "does not export invoke() function" with nothing printed; an extracted command is added and indexed by path, or, when the host rejects it, "Error adding invokeCommand" is printed and nothing changes; the lookups come first |
| InvokeScriptPathCommand.UnregisterInvocableCommands | src/Commands/InvokeScriptPathCommand.ts:134-139 | every indexed command is removed from the host, in index order, and the index is left empty |
| InvokeScriptPathCommand.RunCallback | src/Commands/InvokeScriptPathCommand.ts:123-131 | the callback is called first; a failing exported callback or wrapped `invoke` is reported exactly once by notice and printed error |
| InvokeScriptPathCommand.RunCheckCallback | src/Commands/InvokeScriptPathCommand.ts:104-122 | the check is probed first; the command runs iff the probe passes; a failed probe only emits the "check condition not met" notice; printed errors and notices count exactly the failures |
| InvokeScriptPathCommand.FindCommand | src/Commands/InvokeScriptPathCommand.ts:95-102 | a command is found iff the path is indexed with a non-empty id that the host still holds |
| InvokeScriptPathCommand.InvokeScriptPath | src/Commands/InvokeScriptPathCommand.ts:92-132 | the debug line comes first; without a command it throws "No command registered"; a `checkCallback` takes precedence and the plain callback is then never called |
| InvokeScriptPathCommand.BaseCommandIsInvokeScriptCommand | src/Commands/InvokeScriptPathCommand.ts:57-62 | the base command has the same id and name as the one-shot invoke command of the same file |
| InvokeScriptPathCommand.RegisteredCommandIsFound | src/Commands/InvokeScriptPathCommand.ts:92-102 | after a successful registration with a non-empty id, `invokeScriptPath` finds exactly that command |
| InvokeScriptPathCommand.NothingRunsAfterUnregister | src/Commands/InvokeScriptPathCommand.ts:134-139 | after unregistering, every path fails with "No command registered" and runs nothing |
| Sorting.Sort | src/Script.ts:134-136 | sorting is a permutation, sorted whenever the comparator is a total preorder |
| Script.ExtensionMatchIgnoresCase | src/Script.ts:121-122 | lower-casing a name does not change whether it has a script extension |
| Script.ListedFilePath | src/Script.ts:118-120 | a listed file is judged eligible at the scripts folder joined with the folder and the file name |
| Script.SortedBaseNames | src/Script.ts:134-136 | a permutation of the base names of the listed paths, sorted |
| Script.SortedSubfolders | src/Script.ts:126 | a permutation of the listed subfolders, sorted by base name |
| Script.EligibleNames | src/Script.ts:119-125 | keeps each name whose note is invocable or that has a script extension as often as it occurs, and no other name |
| Script.EligibleNamesPositions | src/Script.ts:119-125 | the kept names are the input read at increasing positions, and those positions are exactly the ones holding an eligible name |
| Script.EligibleNamesSorted | src/Script.ts:119-125 | filtering keeps the sorted order |
| Script.LevelOrder | src/Script.ts:119-129 | a level's files, and its subfolders, are visited in sorted order |
| Script.ScriptPaths | src/Script.ts:115-132 | a level's eligible files, joined under the folder, come before anything from its subfolders |
| Script.ScriptPathsComplete | src/Script.ts:115-132 | a path is emitted iff it is an eligible file of the level or is emitted for one of its subfolders |
| Script.DiscoveredAreScripts | src/Script.ts:115-132 | discovery from the root of the scripts folder, as the pass and the chooser call it, returns exactly the emitted paths, and every one of them is an invocable note or has a script extension in its base name |
| Script.ValidateStartupScript | src/Script.ts:142-161 | the path is returned iff it is set and exists; an unset path is reported only when asked to; a missing one always is, by notice and console error |
| Script.RunInvoke | src/Script.ts:54 | `invoke` is called iff the module has one; success iff it returns |
| Script.InvokeStartupScript | src/Script.ts:42-55 | a second invocation throws "Startup script already invoked"; an invalid path leaves the slot empty; otherwise the slot holds the loaded module iff the load succeeded, even when `invoke` throws |
| Script.CleanupStartupScript | src/Script.ts:32-40 | an empty slot does nothing; the slot empties iff `cleanup` is absent or returns; a throwing `cleanup` escapes and keeps the module |
| Script.ReloadStartupScript | src/Script.ts:80-83 | a failing cleanup ends the reload; otherwise the result is that of a first invocation, after the cleanup's effects |
| Script.SecondInvokeFails | src/Script.ts:42-45 | after a successful load, invoking again throws and keeps the first module |
| Script.ReloadIsFreshInvoke | src/Script.ts:80-83 | a reload whose cleanup succeeds ends as the first invocation after start-up |
| Script.RegisterEachThrows | src/Script.ts:75-77 | an error escapes the loop iff some script misses its export |
| Script.MissingExportAbortsPass | src/Script.ts:75-77 | a missing export ends the loop: the registrations before it stand, its error escapes, and nothing after it runs |
| Script.RegisterEachIndex | src/Script.ts:75-77 | without a missing export, the index maps each path to its accepted command, and paths never accepted keep their entry |
| Script.ApplyKeys | src/Commands/InvokeScriptPathCommand.ts:47-50 | a registration appends its path to the index keys iff the command was added |
| Script.RegisterEachKeys | src/Script.ts:75-77 | without a missing export and with distinct, not yet indexed paths, the loop appends exactly the accepted paths to the index keys, in loop order |
| Script.RegisterEachFrame | src/Script.ts:75-77 | the loop only adds commands; the host's other commands do not affect it |
| Script.RegisterEachKeepsTracked | src/Script.ts:75-77 | every indexed id stays backed by a host command throughout the loop |
| Script.RegisterInvocableScripts | src/Script.ts:57-78 | every command of the previous pass is removed first, in the order they were indexed |
| Script.UnusableFolderRegistersNothing | src/Script.ts:58-71 | without a usable folder only the old commands go, the index is emptied and nothing escapes; an unset folder is silent, and a missing one gets one notice and one console error naming it |
| Script.PassThrows | src/Script.ts:57-78 | an error escapes the pass iff the folder exists and some discovered script misses its export |
| Script.PassIndexesAcceptedScripts | src/Script.ts:57-78 | without a missing export, the index holds exactly the discovered scripts the host accepted |
| Script.PassIndexOrder | src/Script.ts:57-78 | without a missing export and with no path discovered twice, the index keys are the accepted scripts in discovery order |
| Script.MissingExportAbortsRegistration | src/Script.ts:73-77 | the first discovered script missing its export ends the pass after the scripts before it |
| Script.PassIdempotent | src/Script.ts:57-78 | running the pass twice with nothing changed leaves the same commands, index and escaping error |
| Script.ChooserItems | src/Script.ts:85-96 | an unset folder and a missing folder each give their one `Error:` item; otherwise the items are exactly the discovered scripts, in discovery order, each of them a script |
| Script.SelectAndInvoke | src/Script.ts:98-113 | a dismissed chooser logs "No script selected"; an `Error:` item does nothing; any other item is run by path |
| Script.UnusableFolderInvokesNothing | src/Script.ts:90-112 | without a usable folder, no pick runs anything or throws |
| Script.PickedScriptIsInvoked | src/Script.ts:110-112 | a picked script is run by its path unless the path starts with `Error:` |
| TempPluginRegistry.ClassNameOf | src/TempPluginRegistry.ts:15 | the class name used is never empty, and is the class's own when it has one |
| TempPluginRegistry.TempPluginIdInjective | src/TempPluginRegistry.ts:98-100 | distinct class names get distinct registry ids |
| TempPluginRegistry.TempPluginId | src/TempPluginRegistry.ts:98-100 | the id is the `__temp-plugin-` prefix followed by the class name, which can be read back from it |
| TempPluginRegistry.Teardown | src/TempPluginRegistry.ts:74-77 | the wrapper removes the unload command, then emits one "Unregistered" notice, then removes the style iff one was added, and nothing else |
| TempPluginRegistry.Unload | src/TempPluginRegistry.ts:66-78 | a bare instance's `unload` changes nothing and its error escapes; a wrapped one never throws and deletes the entry; neither loads or adds anything |
| TempPluginRegistry.WrappedUnloadTearsDown | src/TempPluginRegistry.ts:67-78 | a failing original `unload` is reported once each way, and the teardown always ends the trace, with the entry gone |
| TempPluginRegistry.StoreAndLoad | src/TempPluginRegistry.ts:33-64 | the new instance is stored, wrapped iff it loaded; a failed load gives one notice and one printed error; a good one gives "Loaded", the unload command, and a style iff there is CSS text |
| TempPluginRegistry.Evict | src/TempPluginRegistry.ts:19-22 | an error escapes iff the instance already under the id is bare with a throwing `unload`; nothing is added |
| TempPluginRegistry.EvictFrame | src/TempPluginRegistry.ts:19-22 | evicting an id leaves every other entry alone |
| TempPluginRegistry.Register | src/TempPluginRegistry.ts:14-80 | an error escapes iff evicting the old instance throws or the constructor throws; a load failure never escapes |
| TempPluginRegistry.RegisterStores | src/TempPluginRegistry.ts:19-33 | the new instance sits under the class's id, wrapped iff it loaded, and every other entry is unchanged |
| TempPluginRegistry.RegisterReports | src/TempPluginRegistry.ts:39-64 | a failed load is reported and installs neither command nor style; a good load emits "Loaded" and the command, and the style iff there is CSS text |
| TempPluginRegistry.RegisterUnloadsFirst | src/TempPluginRegistry.ts:19-42 | over an instance whose `unload` lets nothing escape, that `unload` is called first and the new instance's `load` later; a wrapped old instance has removed its unload command before the load |
| TempPluginRegistry.Unregister | src/TempPluginRegistry.ts:88-96 | an unknown name only gets the "was not registered" notice; a known one has its `unload` called |
| TempPluginRegistry.UnloadEachThrows | src/TempPluginRegistry.ts:82-86 | unloading all stops with an error iff some instance is bare with a throwing `unload` |
| TempPluginRegistry.UnloadEachDeletes | src/TempPluginRegistry.ts:82-86 | unloading loaded instances removes exactly their entries |
| TempPluginRegistry.UnloadAllEmptiesLoaded | src/TempPluginRegistry.ts:82-86 | when every instance has loaded, unloading all empties the registry and throws nothing |
| TempPluginRegistry.UnloadAll | src/TempPluginRegistry.ts:82-86 | unloading all throws iff some registered instance is bare with a throwing `unload` |
| TempPluginRegistry.UnloadCallsOnce | src/TempPluginRegistry.ts:66-68 | one `unload`, wrapped or bare, calls the original `unload` of its own instance exactly once |
| TempPluginRegistry.UnloadEachHandles | src/TempPluginRegistry.ts:82-86 | without an escaping error, every instance's original `unload` is called once, in snapshot order |
| TempPluginRegistry.UnloadEachKeepsBare | src/TempPluginRegistry.ts:82-86 | without an escaping error, exactly the entries of the loaded instances are removed |
| TempPluginRegistry.UnloadAllInOrder | src/TempPluginRegistry.ts:82-86 | without an escaping error, every original `unload` is called once in registry order, and exactly the entries that never loaded remain |
| TempPluginRegistry.RegisterKeepsWf | src/TempPluginRegistry.ts:14-80 | registration keeps every entry under the id of its own non-empty class name, with distinct keys |
| TempPluginRegistry.UnregisterKeepsWf | src/TempPluginRegistry.ts:88-96 | unregistering keeps that invariant |
| TempPluginRegistry.UnloadEachKeepsWf | src/TempPluginRegistry.ts:82-86 | unloading all keeps that invariant |
| TempPluginRegistry.RegisterThenUnregister | src/TempPluginRegistry.ts:88-96 | unregistering a loaded plugin by its name removes its entry and leaves every other entry as it was before registering |
| TempPluginRegistry.FailedLoadStaysRegistered | src/TempPluginRegistry.ts:49-51 | after a failed load, unregistering only calls the original `unload` and the entry stays |
| TempPluginRegistry.UnregisterTwice | src/TempPluginRegistry.ts:88-96 | a second unregistering after the wrapped `unload` only reports that the plugin was not registered |
| TempPluginRegistry.WrappedUnloadRepeats | src/TempPluginRegistry.ts:66-78 | the wrapped `unload` run again calls the original `unload` and repeats the "Unregistered" notice |
| TempPluginRegistry.EmptyNameNeverRegistered | src/TempPluginRegistry.ts:88-100 | unregistering the empty name never finds anything, not even an anonymous plugin |
| ScriptFolderWatcher.StartWatcher | src/Desktop/ScriptFolderWatcher.ts:13-41 | it starts iff a folder is set and exists; an unset folder is silent; a missing one is reported once each way; a start opens and holds a fresh watch |
| ScriptFolderWatcher.StopWatcher | src/Desktop/ScriptFolderWatcher.ts:43-48 | the held watch, if any, is closed and dropped; without one nothing happens |
| ScriptFolderWatcher.StopIdempotent | src/Desktop/ScriptFolderWatcher.ts:43-48 | a second stop changes nothing and emits nothing |
| ScriptFolderWatcher.HandleChange | src/Desktop/ScriptFolderWatcher.ts:27-38 | the callback's error escapes; a watch is held afterwards iff the folder is then set and exists, whatever the callback did |
| ScriptFolderWatcher.ChangeStopsFirst | src/Desktop/ScriptFolderWatcher.ts:28-36 | the held watch is closed before the callback runs, and the new one is opened after it |
| ScriptFolderWatcher.StartThenStop | src/Desktop/ScriptFolderWatcher.ts:26-48 | starting and then stopping returns to the same open watches |
| ScriptFolderWatcher.ChangeKeepsTidy | src/Desktop/ScriptFolderWatcher.ts:28-36 | a change never leaves any watch open but the one held |
| ScriptFolderWatcher.StartWhileHeldLeaks | src/Desktop/ScriptFolderWatcher.ts:27 | starting while a watch is held leaves the old watch open and no longer held |

## Left out

- Asynchrony. Every operation runs to completion in order. The temp plugin's
  load finishes inside its registration. The watcher's 100 ms pause before
  restarting is not modelled.
- Synchronous failure in the wrapped `invoke`. The model reports an `invoke`
  failure after the caller's success line, as for a rejected promise. An
  `invoke` that throws synchronously is caught inside the wrapper before it
  returns, so its report would come first. `Outcome` does not distinguish
  the two.
- Overlapping change events. The watch may deliver several events before it
  is closed, and each would start its own handler. The model handles one
  change at a time.
- The error that escapes a change handler. It goes to the plugin framework's
  safe-invoke wrapper, which is not part of this model.
- The module loader and its cache. Loading is an oracle from key to exports
  or an error, and no cache identity is stated.
- `rebind`. JavaScript `this`-binding has no counterpart here.
- Obsidian's prefixing of command ids in `addCommand`. The index stores the
  id as given.
- Path normalisation. `join` is modelled as dropping an empty side, and
  otherwise joining the two parts with a `/`. `toLowerCase` is ASCII lower-casing.
- Trailing separators in `basename`. `Paths.Basename` of a path ending in `/`
  is empty, where the path library's `basename` first strips the trailing
  separator. The listings give paths without one.
- Sort stability. `Sorting.Sort` is proved to permute its input into sorted
  order; that it keeps the relative order of elements whose keys compare
  equal, as the JavaScript sort does, is not stated.
- The vault's existence checks. Both `vault.exists` and
  `vault.adapter.exists` are the single oracle `pathExists`.
- Exported command fields set explicitly to `undefined`. A spread copies such
  a field over the base value; the model treats the field as absent.
- The settings reads discovery makes. They are not traced; discovery returns
  the paths only.
- A promise rejected by an exported `callback` or `checkCallback`. Callbacks
  are modelled as returning or throwing synchronously.
- Folder listings. The adapter's listing of each subfolder is part of the
  folder tree (`Host.Dir`); the source asks for it by joined path.
- Iteration over the live temp-plugin map. `unloadTempPlugins` is modelled
  over a snapshot of the instances. This is equivalent, because each
  `unload` deletes at most its own entry.
- The temp plugin's manifest. Its author, description, version and name
  fields are not modelled.
- The unload command's registration. It is assumed to succeed.
- Plugin wiring and the thin command classes. These are `Plugin.ts`, the
  clear-cache, choose, reload, unload-one and unload-all commands. They only
  forward to the operations above.
- The real file-system watch. It is a handle counter plus a set of open
  watches.
- Script.PassIndexOrder: it assumes that no path is discovered twice. A
  repeated path would be set again in place, so it would appear once.
- Script.ScriptPaths: its contract states only the order within one level.
  Membership over the whole tree is in `Script.ScriptPathsComplete`.
- InvokeScriptCommand.CheckLoadAndRun: its contract leaves out what happens
  after the key is resolved. That is stated for `Invoke` by
  `InvokeScriptCommand.InvokeLoadsResolvedKey`.
- TempPluginRegistry.UnloadAllEmptiesLoaded: it covers the case where every
  instance has loaded. The general escape condition is
  `TempPluginRegistry.UnloadEachThrows`.
