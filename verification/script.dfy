/**
 Script discovery, the startup-script slot, the registration pass over the
 invocable-scripts folder, and the script chooser.

 Discovery walks the folder tree as the vault adapter lists it: at each level
 the eligible files, by sorted base name, come first, then each subfolder, by
 sorted base name, depth first. Emitted paths are relative to the scripts
 folder. The comparator `le` stands for `localeCompare(a, b) <= 0`.
 */
module Script {
  import opened Effects
  import opened Host
  import opened Paths
  import Sorting
  import OrderedMap
  import Bridge = InvokeScriptPathCommand

  /** The file extensions of script files; matched against the lower-cased file name. */
  const Extensions: seq<string> := [".js", ".cjs", ".mjs", ".ts", ".cts", ".mts"]

  predicate HasScriptExtension(fileName: string)
  {
    exists i :: 0 <= i < |Extensions| && EndsWith(ToLower(fileName), Extensions[i])
  }

  /** Extensions match regardless of letter case. */
  lemma ExtensionMatchIgnoresCase(fileName: string)
    ensures HasScriptExtension(ToLower(fileName)) <==> HasScriptExtension(fileName)
  {
    ToLowerIdempotent(fileName);
  }

  /** The vault path discovery tests for the file `fileName` listed in `folder`. */
  function ListedFilePath(scriptsFolder: string, folder: string, fileName: string): (p: string)
    ensures p == Join(scriptsFolder, Join(folder, fileName))
  {
    JoinAssociative(scriptsFolder, folder, fileName);
    Join(Join(scriptsFolder, folder), fileName)
  }

  /** A listed file is a script when its note is flagged invocable or its name has a script extension. */
  predicate Eligible(app: App, scriptsFolder: string, folder: string, fileName: string)
  {
    app.noteSettings(ListedFilePath(scriptsFolder, folder, fileName)).isInvocable || HasScriptExtension(fileName)
  }

  function Id(s: string): string { s }

  function SubKey(s: Sub): string { Basename(s.path) }

  /** The base name of each listed path. */
  function BaseNames(paths: seq<string>): (names: seq<string>)
    ensures |names| == |paths|
    ensures forall i :: 0 <= i < |paths| ==> names[i] == Basename(paths[i])
    ensures forall n :: n in names <==> exists i :: 0 <= i < |paths| && n == Basename(paths[i])
  {
    var names := seq(|paths|, i requires 0 <= i < |paths| => Basename(paths[i]));
    assert forall n :: n in names ==> exists i :: 0 <= i < |paths| && n == Basename(paths[i]) by {
      forall n | n in names
        ensures exists i :: 0 <= i < |paths| && n == Basename(paths[i])
      {
        var k :| 0 <= k < |names| && names[k] == n;
      }
    }
    names
  }

  /** `getSortedBaseNames`: the base names of the listed paths, sorted. */
  function SortedBaseNames(paths: seq<string>, le: (string, string) -> bool): (r: seq<string>)
    ensures multiset(r) == multiset(BaseNames(paths))
    ensures forall n :: n in r <==> n in BaseNames(paths)
    ensures Sorting.TotalPreorder(le) ==> Sorting.SortedBy(r, Id, le)
  {
    Sorting.SortMembers(BaseNames(paths), Id, le);
    Sorting.Sort(BaseNames(paths), Id, le)
  }

  /** The subfolders of a listing, in sorted base-name order. */
  function SortedSubfolders(d: Dir, le: (string, string) -> bool): (r: seq<Sub>)
    ensures multiset(r) == multiset(d.folders)
    ensures forall s :: s in r <==> s in d.folders
    ensures Sorting.TotalPreorder(le) ==> Sorting.SortedBy(r, SubKey, le)
  {
    Sorting.SortMembers(d.folders, SubKey, le);
    Sorting.Sort(d.folders, SubKey, le)
  }

  /** The eligible names among `names`, in their order: each eligible name as often as it occurs, and no other. */
  function EligibleNames(app: App, scriptsFolder: string, folder: string, names: seq<string>): (r: seq<string>)
    ensures |r| <= |names|
    ensures forall n :: multiset(r)[n] == if Eligible(app, scriptsFolder, folder, n) then multiset(names)[n] else 0
    ensures forall n :: n in r <==> n in names && Eligible(app, scriptsFolder, folder, n)
  {
    if names == [] then []
    else
      var rest := EligibleNames(app, scriptsFolder, folder, names[1..]);
      assert names == [names[0]] + names[1..];
      assert forall n :: n in names <==> n == names[0] || n in names[1..];
      if Eligible(app, scriptsFolder, folder, names[0]) then [names[0]] + rest else rest
  }

  /** `r` is `names` read at the increasing positions `idx`. */
  ghost predicate ReadAt(r: seq<string>, names: seq<string>, idx: seq<nat>)
  {
    && |idx| == |r|
    && (forall k :: 0 <= k < |idx| ==> idx[k] < |names| && r[k] == names[idx[k]])
    && (forall k, l :: 0 <= k < l < |idx| ==> idx[k] < idx[l])
  }

  /** `idx` holds exactly the positions of the eligible names. */
  ghost predicate EligibleAt(app: App, scriptsFolder: string, folder: string, names: seq<string>, idx: seq<nat>)
  {
    forall i :: 0 <= i < |names| ==> (i in idx <==> Eligible(app, scriptsFolder, folder, names[i]))
  }

  /**
   The positions `EligibleNames` keeps: increasing, and exactly those of the
   eligible names, so the result is `names` with the others dropped.
   */
  lemma {:induction false} EligibleNamesPositions(app: App, scriptsFolder: string, folder: string, names: seq<string>) returns (idx: seq<nat>)
    ensures ReadAt(EligibleNames(app, scriptsFolder, folder, names), names, idx)
    ensures EligibleAt(app, scriptsFolder, folder, names, idx)
    decreases |names|
  {
    if names == [] {
      idx := [];
    } else {
      var tail := EligibleNamesPositions(app, scriptsFolder, folder, names[1..]);
      var rest := EligibleNames(app, scriptsFolder, folder, names[1..]);
      var shifted := seq(|tail|, k requires 0 <= k < |tail| => tail[k] + 1);
      ShiftedReadAt(names, rest, tail, shifted);
      ShiftedPositions(names, tail, shifted);
      if Eligible(app, scriptsFolder, folder, names[0]) {
        idx := [0] + shifted;
        ConsReadAt(names, rest, shifted);
      } else {
        idx := shifted;
      }
    }
  }

  lemma ShiftedReadAt(names: seq<string>, rest: seq<string>, tail: seq<nat>, shifted: seq<nat>)
    requires names != [] && ReadAt(rest, names[1..], tail)
    requires |shifted| == |tail| && forall k :: 0 <= k < |tail| ==> shifted[k] == tail[k] + 1
    ensures ReadAt(rest, names, shifted)
    ensures forall k :: 0 <= k < |shifted| ==> 0 < shifted[k]
  {
    forall k | 0 <= k < |shifted|
      ensures shifted[k] < |names| && rest[k] == names[shifted[k]]
    {
      assert names[1..][tail[k]] == names[tail[k] + 1];
    }
  }

  lemma ShiftedPositions(names: seq<string>, tail: seq<nat>, shifted: seq<nat>)
    requires |shifted| == |tail| && forall k :: 0 <= k < |tail| ==> shifted[k] == tail[k] + 1
    ensures forall i :: 1 <= i <= |names| ==> (i in shifted <==> i - 1 in tail)
    ensures 0 !in shifted
  {
    forall i | 1 <= i <= |names|
      ensures i in shifted <==> i - 1 in tail
    {
      if i - 1 in tail {
        var k :| 0 <= k < |tail| && tail[k] == i - 1;
        assert shifted[k] == i;
      }
    }
  }

  lemma ConsReadAt(names: seq<string>, rest: seq<string>, shifted: seq<nat>)
    requires names != [] && ReadAt(rest, names, shifted)
    requires forall k :: 0 <= k < |shifted| ==> 0 < shifted[k]
    ensures ReadAt([names[0]] + rest, names, [0] + shifted)
  {
    var r := [names[0]] + rest;
    var idx := [0] + shifted;
    forall k | 0 < k < |idx|
      ensures idx[k] < |names| && r[k] == names[idx[k]]
    {
      assert idx[k] == shifted[k - 1] && r[k] == rest[k - 1];
    }
    forall k, l | 0 <= k < l < |idx|
      ensures idx[k] < idx[l]
    {
      assert idx[l] == shifted[l - 1];
      if k > 0 {
        assert idx[k] == shifted[k - 1];
      }
    }
  }

  /** Keeping the eligible names keeps their sorted order. */
  lemma {:induction false} EligibleNamesSorted(app: App, scriptsFolder: string, folder: string, names: seq<string>, le: (string, string) -> bool)
    requires Sorting.SortedBy(names, Id, le)
    ensures Sorting.SortedBy(EligibleNames(app, scriptsFolder, folder, names), Id, le)
  {
    if names != [] {
      var rest := EligibleNames(app, scriptsFolder, folder, names[1..]);
      assert Sorting.SortedBy(names[1..], Id, le);
      EligibleNamesSorted(app, scriptsFolder, folder, names[1..], le);
      if Eligible(app, scriptsFolder, folder, names[0]) {
        forall n | n in rest
          ensures le(Id(names[0]), Id(n))
        {
          var j :| 0 <= j < |names[1..]| && names[1..][j] == n;
          assert names[j + 1] == n;
        }
        ConsSorted(names[0], rest, le);
      }
    }
  }

  /** Putting a name in front of a sorted sequence keeps it sorted when the name is below all of it. */
  lemma ConsSorted(x: string, rest: seq<string>, le: (string, string) -> bool)
    requires Sorting.SortedBy(rest, Id, le)
    requires forall n :: n in rest ==> le(Id(x), Id(n))
    ensures Sorting.SortedBy([x] + rest, Id, le)
  {
    var r := [x] + rest;
    forall i, j | 0 <= i < j < |r|
      ensures le(Id(r[i]), Id(r[j]))
    {
      assert r[j] == rest[j - 1];
      if i > 0 {
        assert r[i] == rest[i - 1];
      }
    }
  }

  /** The eligible files of one level, by name. */
  function LevelNames(app: App, scriptsFolder: string, folder: string, d: Dir, le: (string, string) -> bool): seq<string>
  {
    EligibleNames(app, scriptsFolder, folder, SortedBaseNames(d.files, le))
  }

  /** A level's eligible files come in sorted name order, and so do its subfolders. */
  lemma LevelOrder(app: App, scriptsFolder: string, folder: string, d: Dir, le: (string, string) -> bool)
    requires Sorting.TotalPreorder(le)
    ensures Sorting.SortedBy(LevelNames(app, scriptsFolder, folder, d, le), Id, le)
    ensures Sorting.SortedBy(SortedSubfolders(d, le), SubKey, le)
  {
    EligibleNamesSorted(app, scriptsFolder, folder, SortedBaseNames(d.files, le), le);
  }

  /** `names`, each joined under `folder`. */
  function Under(folder: string, names: seq<string>): (r: seq<string>)
    ensures |r| == |names|
    ensures forall i :: 0 <= i < |names| ==> r[i] == Join(folder, names[i])
  {
    seq(|names|, i requires 0 <= i < |names| => Join(folder, names[i]))
  }

  /**
   `getAllScriptPaths(app, scriptsFolder, folder)` over the listing `d` of
   `join(scriptsFolder, folder)`: the level's eligible files, then each
   subfolder's scripts.
   */
  function ScriptPaths(app: App, scriptsFolder: string, folder: string, d: Dir, le: (string, string) -> bool): (r: seq<string>)
    ensures var level := LevelNames(app, scriptsFolder, folder, d, le);
      |level| <= |r| && r[..|level|] == Under(folder, level)
    decreases d, 1
  {
    var level := Under(folder, LevelNames(app, scriptsFolder, folder, d, le));
    var r := level + SubfolderScripts(app, scriptsFolder, folder, SortedSubfolders(d, le), d, le);
    assert r[..|level|] == level;
    r
  }

  /** The scripts of the subfolders `subs` of `parent`, one subfolder after another. */
  function SubfolderScripts(app: App, scriptsFolder: string, folder: string, subs: seq<Sub>, ghost parent: Dir, le: (string, string) -> bool): seq<string>
    requires forall i :: 0 <= i < |subs| ==> subs[i] in parent.folders
    decreases parent, 0, |subs|
  {
    if subs == [] then []
    else
      assert subs[0] in parent.folders;
      ScriptPaths(app, scriptsFolder, Join(folder, SubKey(subs[0])), subs[0].dir, le)
        + SubfolderScripts(app, scriptsFolder, folder, subs[1..], parent, le)
  }

  /** Discovery from the root of the scripts folder; `DiscoveredAreScripts` states what it returns. */
  function DiscoverScripts(app: App, scriptsFolder: string, le: (string, string) -> bool): seq<string>
  {
    ScriptPaths(app, scriptsFolder, "", app.list(scriptsFolder), le)
  }

  /**
   The paths discovery emits, independently of order: an eligible file of the
   level, or anything emitted for one of its subfolders.
   */
  ghost predicate Emits(app: App, scriptsFolder: string, folder: string, d: Dir, p: string)
    decreases d
  {
    FileEmits(app, scriptsFolder, folder, d, p) || SomeEmits(app, scriptsFolder, folder, d.folders, p)
  }

  /** `p` is an eligible file of the level, joined under the folder. */
  ghost predicate FileEmits(app: App, scriptsFolder: string, folder: string, d: Dir, p: string)
  {
    exists i :: 0 <= i < |d.files| && Eligible(app, scriptsFolder, folder, Basename(d.files[i]))
                                   && p == Join(folder, Basename(d.files[i]))
  }

  /** Some subfolder among `subs` emits `p`. */
  ghost predicate SomeEmits(app: App, scriptsFolder: string, folder: string, subs: seq<Sub>, p: string)
    decreases subs
  {
    exists j :: 0 <= j < |subs| && EmitsFromSub(app, scriptsFolder, folder, subs[j], p)
  }

  ghost predicate EmitsFromSub(app: App, scriptsFolder: string, folder: string, s: Sub, p: string)
    decreases s
  {
    Emits(app, scriptsFolder, Join(folder, SubKey(s)), s.dir, p)
  }

  /** Discovery emits exactly the paths `Emits` describes. */
  lemma ScriptPathsComplete(app: App, scriptsFolder: string, folder: string, d: Dir, le: (string, string) -> bool)
    ensures forall p :: p in ScriptPaths(app, scriptsFolder, folder, d, le) <==> Emits(app, scriptsFolder, folder, d, p)
  {
    forall p
      ensures p in ScriptPaths(app, scriptsFolder, folder, d, le) <==> Emits(app, scriptsFolder, folder, d, p)
    {
      ScriptPathsHas(app, scriptsFolder, folder, d, le, p);
    }
  }

  /** Discovery emits `p` iff `Emits` says so, by induction over the folder tree. */
  lemma {:induction false} ScriptPathsHas(app: App, scriptsFolder: string, folder: string, d: Dir, le: (string, string) -> bool, p: string)
    ensures p in ScriptPaths(app, scriptsFolder, folder, d, le) <==> Emits(app, scriptsFolder, folder, d, p)
    decreases d, 1
  {
    var subs := SortedSubfolders(d, le);
    var level := Under(folder, LevelNames(app, scriptsFolder, folder, d, le));
    var below := SubfolderScripts(app, scriptsFolder, folder, subs, d, le);
    assert ScriptPaths(app, scriptsFolder, folder, d, le) == level + below;
    SubfolderScriptsHas(app, scriptsFolder, folder, subs, d, le, p);
    LevelComplete(app, scriptsFolder, folder, d, le, p);
    SubfoldersComplete(app, scriptsFolder, folder, d, le, p);
    assert p in level + below <==> p in level || p in below;
  }

  lemma LevelComplete(app: App, scriptsFolder: string, folder: string, d: Dir, le: (string, string) -> bool, p: string)
    ensures p in Under(folder, LevelNames(app, scriptsFolder, folder, d, le)) <==> FileEmits(app, scriptsFolder, folder, d, p)
  {
    var names := LevelNames(app, scriptsFolder, folder, d, le);
    var sorted := SortedBaseNames(d.files, le);
    var under := Under(folder, names);
    if p in under {
      var k :| 0 <= k < |names| && under[k] == p;
      var n := names[k];
      assert n in names;
      assert n in sorted && Eligible(app, scriptsFolder, folder, n);
      assert n in BaseNames(d.files);
      var i :| 0 <= i < |d.files| && n == Basename(d.files[i]);
      assert p == Join(folder, Basename(d.files[i]));
    }
    if exists i :: 0 <= i < |d.files| && Eligible(app, scriptsFolder, folder, Basename(d.files[i]))
                                       && p == Join(folder, Basename(d.files[i])) {
      var i :| 0 <= i < |d.files| && Eligible(app, scriptsFolder, folder, Basename(d.files[i]))
                                  && p == Join(folder, Basename(d.files[i]));
      var n := Basename(d.files[i]);
      assert BaseNames(d.files)[i] == n;
      assert n in sorted;
      assert n in names;
      var k :| 0 <= k < |names| && names[k] == n;
      assert under[k] == p;
    }
  }

  lemma SubfoldersComplete(app: App, scriptsFolder: string, folder: string, d: Dir, le: (string, string) -> bool, p: string)
    ensures SomeEmits(app, scriptsFolder, folder, SortedSubfolders(d, le), p) <==> SomeEmits(app, scriptsFolder, folder, d.folders, p)
  {
    var subs := SortedSubfolders(d, le);
    if exists j :: 0 <= j < |subs| && EmitsFromSub(app, scriptsFolder, folder, subs[j], p) {
      var j :| 0 <= j < |subs| && EmitsFromSub(app, scriptsFolder, folder, subs[j], p);
      assert subs[j] in d.folders;
    }
    if exists j :: 0 <= j < |d.folders| && EmitsFromSub(app, scriptsFolder, folder, d.folders[j], p) {
      var j :| 0 <= j < |d.folders| && EmitsFromSub(app, scriptsFolder, folder, d.folders[j], p);
      assert d.folders[j] in subs;
    }
  }

  lemma {:induction false} SubfolderScriptsHas(app: App, scriptsFolder: string, folder: string, subs: seq<Sub>, parent: Dir, le: (string, string) -> bool, p: string)
    requires forall i :: 0 <= i < |subs| ==> subs[i] in parent.folders
    ensures p in SubfolderScripts(app, scriptsFolder, folder, subs, parent, le) <==> SomeEmits(app, scriptsFolder, folder, subs, p)
    decreases parent, 0, |subs|
  {
    if subs != [] {
      var s := subs[0];
      var first := ScriptPaths(app, scriptsFolder, Join(folder, SubKey(s)), s.dir, le);
      var rest := SubfolderScripts(app, scriptsFolder, folder, subs[1..], parent, le);
      ScriptPathsHas(app, scriptsFolder, Join(folder, SubKey(s)), s.dir, le, p);
      SubfolderScriptsHas(app, scriptsFolder, folder, subs[1..], parent, le, p);
      assert SubfolderScripts(app, scriptsFolder, folder, subs, parent, le) == first + rest;
      assert p in first + rest <==> p in first || p in rest;
      SomeSubEmits(app, scriptsFolder, folder, subs, p);
    }
  }

  /** Some subfolder of `subs` emits `p` iff the first one does or one of the rest does. */
  lemma SomeSubEmits(app: App, scriptsFolder: string, folder: string, subs: seq<Sub>, p: string)
    requires subs != []
    ensures SomeEmits(app, scriptsFolder, folder, subs, p) <==>
      EmitsFromSub(app, scriptsFolder, folder, subs[0], p) || SomeEmits(app, scriptsFolder, folder, subs[1..], p)
  {
    if exists j :: 0 <= j < |subs[1..]| && EmitsFromSub(app, scriptsFolder, folder, subs[1..][j], p) {
      var j :| 0 <= j < |subs[1..]| && EmitsFromSub(app, scriptsFolder, folder, subs[1..][j], p);
      assert subs[1..][j] == subs[j + 1];
    }
    if exists j :: 0 <= j < |subs| && EmitsFromSub(app, scriptsFolder, folder, subs[j], p) {
      var j :| 0 <= j < |subs| && EmitsFromSub(app, scriptsFolder, folder, subs[j], p);
      if j > 0 {
        assert subs[1..][j - 1] == subs[j];
      }
    }
  }

  /** No empty name has a script extension. */
  lemma EmptyNameIsNoScript()
    ensures !HasScriptExtension("")
  {
    assert forall i :: 0 <= i < |Extensions| ==> |Extensions[i]| > 0;
  }

  lemma ListedFileIsScript(app: App, scriptsFolder: string, folder: string, fileName: string)
    requires '/' !in fileName
    requires Eligible(app, scriptsFolder, folder, fileName)
    ensures var p := Join(folder, fileName);
      app.noteSettings(Join(scriptsFolder, p)).isInvocable || HasScriptExtension(Basename(p))
  {
    if fileName != "" {
      BasenameOfJoin(folder, fileName);
    } else {
      EmptyNameIsNoScript();
    }
  }

  /** Every emitted path names, relative to the scripts folder, an invocable note or a file with a script extension. */
  lemma {:induction false} EmittedIsScript(app: App, scriptsFolder: string, folder: string, d: Dir, p: string)
    requires Emits(app, scriptsFolder, folder, d, p)
    ensures app.noteSettings(Join(scriptsFolder, p)).isInvocable || HasScriptExtension(Basename(p))
    decreases d
  {
    if exists i :: 0 <= i < |d.files| && Eligible(app, scriptsFolder, folder, Basename(d.files[i]))
                                       && p == Join(folder, Basename(d.files[i])) {
      var i :| 0 <= i < |d.files| && Eligible(app, scriptsFolder, folder, Basename(d.files[i]))
                                  && p == Join(folder, Basename(d.files[i]));
      ListedFileIsScript(app, scriptsFolder, folder, Basename(d.files[i]));
    } else {
      var j :| 0 <= j < |d.folders| && EmitsFromSub(app, scriptsFolder, folder, d.folders[j], p);
      var s := d.folders[j];
      EmittedIsScript(app, scriptsFolder, Join(folder, SubKey(s)), s.dir, p);
    }
  }

  /** What discovery from the scripts folder returns: exactly the emitted paths, each of them a script. */
  lemma DiscoveredAreScripts(app: App, scriptsFolder: string, le: (string, string) -> bool)
    ensures forall p :: p in DiscoverScripts(app, scriptsFolder, le) <==> Emits(app, scriptsFolder, "", app.list(scriptsFolder), p)
    ensures forall p :: p in DiscoverScripts(app, scriptsFolder, le) ==>
      app.noteSettings(Join(scriptsFolder, p)).isInvocable || HasScriptExtension(Basename(p))
  {
    ScriptPathsComplete(app, scriptsFolder, "", app.list(scriptsFolder), le);
    forall p | p in DiscoverScripts(app, scriptsFolder, le)
      ensures app.noteSettings(Join(scriptsFolder, p)).isInvocable || HasScriptExtension(Basename(p))
    {
      EmittedIsScript(app, scriptsFolder, "", app.list(scriptsFolder), p);
    }
  }

  // ---------------------------------------------------------------- startup script

  /** The startup-script slot: empty, or the module loaded from the configured path. */
  datatype StartupSlot = Unloaded | Loaded(path: string, script: Module)

  /**
   `validateStartupScript`: the configured path when it is set and exists. An
   unset path is reported only when asked to; a missing file always is.
   */
  function ValidateStartupScript(app: App, startupScriptPath: string, shouldWarnOnNotConfigured: bool): (r: (Option<string>, seq<Effect>))
    ensures r.0.Some? <==> startupScriptPath != "" && app.pathExists(startupScriptPath)
    ensures r.0.Some? ==> r.0.value == startupScriptPath && r.1 == []
    ensures startupScriptPath == "" ==>
      r.1 == if shouldWarnOnNotConfigured
             then [Notice("Startup script is not configured"), ConsoleWarn("Startup script is not configured")]
             else []
    ensures startupScriptPath != "" && !app.pathExists(startupScriptPath) ==>
      r.1 == [Notice("Startup script not found: " + startupScriptPath), ConsoleError("Startup script not found: " + startupScriptPath)]
  {
    if startupScriptPath == "" then
      var message := "Startup script is not configured";
      (None, if shouldWarnOnNotConfigured then [Notice(message), ConsoleWarn(message)] else [])
    else if !app.pathExists(startupScriptPath) then
      var message := "Startup script not found: " + startupScriptPath;
      (None, [Notice(message), ConsoleError(message)])
    else (Some(startupScriptPath), [])
  }

  /** What calling a module's `invoke` does; a module without one fails as calling `undefined` does. */
  function RunInvoke(path: string, m: Module): (r: (seq<Effect>, Option<string>))
    ensures (ScriptInvoked(path) in r.0) <==> m.invoke.Some?
    ensures r.1.None? <==> m.invoke == Some(Returns)
  {
    match m.invoke
    case None => ([], Some("startupScript.invoke is not a function"))
    case Some(Returns) => ([ScriptInvoked(path)], None)
    case Some(Throws(e)) => ([ScriptInvoked(path)], Some(e))
  }

  /**
   `invokeStartupScript`: refuses a second invocation; otherwise validates the
   configured path, loads it and stores the module in the slot before running
   its `invoke`, so the slot is `Loaded` even when `invoke` throws.
   */
  function InvokeStartupScript(slot: StartupSlot, app: App, startupScriptPath: string): (r: Step<StartupSlot>)
    ensures slot.Loaded? ==> r == Step(slot, [], Some("Startup script already invoked"))
    ensures slot.Unloaded? && (startupScriptPath == "" || !app.pathExists(startupScriptPath)) ==>
      && r.state == Unloaded && r.thrown.None?
      && r.effects == ValidateStartupScript(app, startupScriptPath, false).1
      && Count(r.effects, IsNotice) == Count(r.effects, IsConsoleError) == (if startupScriptPath == "" then 0 else 1)
    ensures slot.Unloaded? && startupScriptPath != "" && app.pathExists(startupScriptPath) ==>
      && |r.effects| > 0 && r.effects[0] == ModuleLoaded(startupScriptPath)
      && (r.state.Loaded? <==> app.load(startupScriptPath).LoadOk?)
      && (r.state.Loaded? ==> r.state == Loaded(startupScriptPath, app.load(startupScriptPath).exports))
      && (ScriptInvoked(startupScriptPath) in r.effects <==> r.state.Loaded? && r.state.script.invoke.Some?)
      && (r.thrown.None? <==> r.state.Loaded? && r.state.script.invoke == Some(Returns))
      && (r.state.Loaded? && r.state.script.invoke.None? ==> r.thrown == Some("startupScript.invoke is not a function"))
  {
    if slot.Loaded? then Step(slot, [], Some("Startup script already invoked"))
    else
      var (validated, reported) := ValidateStartupScript(app, startupScriptPath, false);
      match validated
      case None => Step(Unloaded, reported, None)
      case Some(path) =>
        match app.load(path)
        case LoadError(e) => Step(Unloaded, [ModuleLoaded(path)], Some(e))
        case LoadOk(m) =>
          var (ran, thrown) := RunInvoke(path, m);
          Step(Loaded(path, m), [ModuleLoaded(path)] + ran, thrown)
  }

  /**
   `cleanupStartupScript`: nothing to do when the slot is empty; otherwise the
   optional `cleanup` hook runs and only then is the slot emptied, so a hook
   that throws leaves the module in place.
   */
  function CleanupStartupScript(slot: StartupSlot): (r: Step<StartupSlot>)
    ensures slot.Unloaded? ==> r == Step(Unloaded, [], None)
    ensures slot.Loaded? ==>
      && r.effects == (if slot.script.cleanup.Some? then [ScriptCleanedUp(slot.path)] else [])
      && (r.thrown.Some? <==> slot.script.cleanup.Some? && slot.script.cleanup.value.Throws?)
      && (r.thrown.Some? ==> r.thrown.value == slot.script.cleanup.value.error && r.state == slot)
      && (r.thrown.None? ==> r.state == Unloaded)
  {
    match slot
    case Unloaded => Step(Unloaded, [], None)
    case Loaded(path, m) =>
      match m.cleanup
      case None => Step(Unloaded, [], None)
      case Some(Returns) => Step(Unloaded, [ScriptCleanedUp(path)], None)
      case Some(Throws(e)) => Step(slot, [ScriptCleanedUp(path)], Some(e))
  }

  /** `reloadStartupScript`: cleanup, then invoke; an error of the cleanup ends it. */
  function ReloadStartupScript(slot: StartupSlot, app: App, startupScriptPath: string): (r: Step<StartupSlot>)
    ensures CleanupStartupScript(slot).thrown.Some? ==> r == CleanupStartupScript(slot)
    ensures CleanupStartupScript(slot).thrown.None? ==>
      var first := InvokeStartupScript(Unloaded, app, startupScriptPath);
      && r.state == first.state && r.thrown == first.thrown
      && r.effects == CleanupStartupScript(slot).effects + first.effects
  {
    var cleaned := CleanupStartupScript(slot);
    if cleaned.thrown.Some? then cleaned
    else
      var invoked := InvokeStartupScript(cleaned.state, app, startupScriptPath);
      Step(invoked.state, cleaned.effects + invoked.effects, invoked.thrown)
  }

  /** Invoking twice without a cleanup in between fails the second time and keeps the first module. */
  lemma SecondInvokeFails(slot: StartupSlot, app: App, startupScriptPath: string, app': App, startupScriptPath': string)
    requires InvokeStartupScript(slot, app, startupScriptPath).state.Loaded?
    ensures var first := InvokeStartupScript(slot, app, startupScriptPath).state;
      InvokeStartupScript(first, app', startupScriptPath') == Step(first, [], Some("Startup script already invoked"))
  {
  }

  /** A reload from a slot whose cleanup succeeds behaves as the first invocation after start-up. */
  lemma ReloadIsFreshInvoke(slot: StartupSlot, app: App, startupScriptPath: string)
    requires slot.Loaded? ==> slot.script.cleanup.None? || slot.script.cleanup.value.Returns?
    ensures ReloadStartupScript(slot, app, startupScriptPath).state == InvokeStartupScript(Unloaded, app, startupScriptPath).state
    ensures ReloadStartupScript(slot, app, startupScriptPath).thrown == InvokeStartupScript(Unloaded, app, startupScriptPath).thrown
  {
  }

  // ---------------------------------------------------------------- registration pass

  /** Whether `register` of `relativePath` lets the missing-export error escape. */
  predicate MissesExport(app: App, scriptsFolder: string, relativePath: string)
  {
    Bridge.RegistrationOf(app, scriptsFolder, relativePath).MissingExport?
  }

  /** One script of the pass with the host's answers for it: how its registration goes, and the lookups it makes. */
  datatype Planned = Planned(path: string, reg: Bridge.Registration, lookups: seq<Effect>)

  /** The host's answers for each of `paths`. */
  function Plan(app: App, scriptsFolder: string, paths: seq<string>): seq<Planned>
  {
    seq(|paths|, i requires 0 <= i < |paths| =>
      Planned(paths[i], Bridge.RegistrationOf(app, scriptsFolder, paths[i]), Bridge.GetScriptOrCommand(app, scriptsFolder, paths[i]).1))
  }

  /** The host answers alike for one path wherever it occurs. */
  ghost predicate Consistent(plan: seq<Planned>)
  {
    forall i, j :: 0 <= i < |plan| && 0 <= j < |plan| && plan[i].path == plan[j].path ==> plan[i].reg == plan[j].reg
  }

  lemma PlanConsistent(app: App, scriptsFolder: string, paths: seq<string>)
    ensures Consistent(Plan(app, scriptsFolder, paths))
  {
  }

  /** Registers the planned scripts one after another; an error that escapes one registration ends the pass. */
  function RegisterEach(b: Bridge.Bridge, plan: seq<Planned>): Step<Bridge.Bridge>
    decreases |plan|
  {
    if plan == [] then Step(b, [], None)
    else
      var first := Bridge.Apply(b, plan[0].path, plan[0].reg, plan[0].lookups);
      if first.thrown.Some? then first
      else
        var rest := RegisterEach(first.state, plan[1..]);
        Step(rest.state, first.effects + rest.effects, rest.thrown)
  }

  /** An error escapes the pass exactly when some planned registration lets one escape. */
  lemma {:induction false} RegisterEachThrows(b: Bridge.Bridge, plan: seq<Planned>)
    ensures RegisterEach(b, plan).thrown.Some? <==> exists i :: 0 <= i < |plan| && plan[i].reg.MissingExport?
    decreases |plan|
  {
    if plan != [] && !plan[0].reg.MissingExport? {
      var first := Bridge.Apply(b, plan[0].path, plan[0].reg, plan[0].lookups);
      RegisterEachThrows(first.state, plan[1..]);
      assert forall i :: 0 < i < |plan| ==> plan[i] == plan[1..][i - 1];
    }
  }

  /** One step of the pass, when the first registration lets nothing escape. */
  lemma RegisterEachStep(b: Bridge.Bridge, plan: seq<Planned>)
    requires plan != [] && !plan[0].reg.MissingExport?
    ensures var first := Bridge.Apply(b, plan[0].path, plan[0].reg, plan[0].lookups);
      var rest := RegisterEach(first.state, plan[1..]);
      RegisterEach(b, plan) == Step(rest.state, first.effects + rest.effects, rest.thrown)
  {
  }

  /** The pass ends at `plan[k]`: what came before stands, and that registration's error escapes with nothing reported. */
  ghost predicate AbortsAt(b: Bridge.Bridge, plan: seq<Planned>, k: nat)
    requires k < |plan| && plan[k].reg.MissingExport?
  {
    var whole := RegisterEach(b, plan);
    var before := RegisterEach(b, plan[..k]);
    && whole.state == before.state
    && whole.thrown == Some(plan[k].reg.error)
    && whole.effects == before.effects + plan[k].lookups
  }

  /**
   The missing-export error of one script ends the pass: the scripts after it
   are not registered, and the error escapes.
   */
  lemma {:induction false} MissingExportAbortsPass(b: Bridge.Bridge, plan: seq<Planned>, k: nat)
    requires k < |plan| && plan[k].reg.MissingExport?
    requires forall i :: 0 <= i < k ==> !plan[i].reg.MissingExport?
    ensures AbortsAt(b, plan, k)
    decreases k
  {
    if k == 0 {
      assert plan[..0] == [];
    } else {
      var first := Bridge.Apply(b, plan[0].path, plan[0].reg, plan[0].lookups);
      assert forall i :: 0 <= i < k - 1 ==> plan[1..][i] == plan[i + 1];
      assert plan[1..][k - 1] == plan[k];
      MissingExportAbortsPass(first.state, plan[1..], k - 1);
      AbortsAfterFirst(b, plan, k);
    }
  }

  /** A pass that ends at `plan[k]` after its first registration ends there from the start too. */
  lemma AbortsAfterFirst(b: Bridge.Bridge, plan: seq<Planned>, k: nat)
    requires 0 < k < |plan| && plan[k].reg.MissingExport? && !plan[0].reg.MissingExport?
    requires plan[1..][k - 1] == plan[k]
    requires AbortsAt(Bridge.Apply(b, plan[0].path, plan[0].reg, plan[0].lookups).state, plan[1..], k - 1)
    ensures AbortsAt(b, plan, k)
  {
    var first := Bridge.Apply(b, plan[0].path, plan[0].reg, plan[0].lookups);
    var restWhole := RegisterEach(first.state, plan[1..]);
    var restBefore := RegisterEach(first.state, plan[1..][..k - 1]);
    RegisterEachStep(b, plan);
    var prefix := plan[..k];
    assert prefix[1..] == plan[1..][..k - 1];
    RegisterEachStep(b, prefix);
    assert RegisterEach(b, prefix) == Step(restBefore.state, first.effects + restBefore.effects, restBefore.thrown);
    assert first.effects + (restBefore.effects + plan[k].lookups) == (first.effects + restBefore.effects) + plan[k].lookups;
  }

  /** Without a missing export, the pass indexes exactly the accepted paths, over what was indexed before. */
  lemma RegisterEachIndex(b: Bridge.Bridge, plan: seq<Planned>, p: string)
    requires Consistent(plan)
    requires forall i :: 0 <= i < |plan| ==> !plan[i].reg.MissingExport?
    ensures forall i :: 0 <= i < |plan| && plan[i].path == p && plan[i].reg.Accepted? ==>
      OrderedMap.Get(RegisterEach(b, plan).state.index, p) == Some(plan[i].reg.command.id)
    ensures (forall i :: 0 <= i < |plan| && plan[i].path == p ==> !plan[i].reg.Accepted?) ==>
      OrderedMap.Get(RegisterEach(b, plan).state.index, p) == OrderedMap.Get(b.index, p)
  {
    forall i | 0 <= i < |plan| && plan[i].path == p && plan[i].reg.Accepted?
      ensures OrderedMap.Get(RegisterEach(b, plan).state.index, p) == Some(plan[i].reg.command.id)
    {
      RegisterEachIndexesAccepted(b, plan, p, i);
    }
    if forall i :: 0 <= i < |plan| && plan[i].path == p ==> !plan[i].reg.Accepted? {
      RegisterEachKeepsUnaccepted(b, plan, p);
    }
  }

  /** A path the pass never accepts keeps its index entry. */
  lemma {:induction false} RegisterEachKeepsUnaccepted(b: Bridge.Bridge, plan: seq<Planned>, p: string)
    requires forall i :: 0 <= i < |plan| ==> !plan[i].reg.MissingExport?
    requires forall i :: 0 <= i < |plan| && plan[i].path == p ==> !plan[i].reg.Accepted?
    ensures OrderedMap.Get(RegisterEach(b, plan).state.index, p) == OrderedMap.Get(b.index, p)
    decreases |plan|
  {
    if plan != [] {
      var first := Bridge.Apply(b, plan[0].path, plan[0].reg, plan[0].lookups);
      var tail := plan[1..];
      Bridge.ApplyIndex(b, plan[0].path, plan[0].reg, plan[0].lookups);
      assert forall k :: 1 <= k < |plan| ==> plan[k] == tail[k - 1];
      RegisterEachKeepsUnaccepted(first.state, tail, p);
      RegisterEachStep(b, plan);
    }
  }

  /** A path the pass accepts ends up indexed to its command. */
  lemma {:induction false} RegisterEachIndexesAccepted(b: Bridge.Bridge, plan: seq<Planned>, p: string, i: nat)
    requires Consistent(plan)
    requires forall k :: 0 <= k < |plan| ==> !plan[k].reg.MissingExport?
    requires i < |plan| && plan[i].path == p && plan[i].reg.Accepted?
    ensures OrderedMap.Get(RegisterEach(b, plan).state.index, p) == Some(plan[i].reg.command.id)
    decreases |plan|
  {
    var first := Bridge.Apply(b, plan[0].path, plan[0].reg, plan[0].lookups);
    var tail := plan[1..];
    Bridge.ApplyIndex(b, plan[0].path, plan[0].reg, plan[0].lookups);
    assert forall k :: 1 <= k < |plan| ==> plan[k] == tail[k - 1];
    RegisterEachStep(b, plan);
    if exists j :: 0 <= j < |tail| && tail[j].path == p && tail[j].reg.Accepted? {
      var j :| 0 <= j < |tail| && tail[j].path == p && tail[j].reg.Accepted?;
      assert tail[j] == plan[j + 1];
      assert Consistent(tail);
      RegisterEachIndexesAccepted(first.state, tail, p, j);
    } else {
      RegisterEachKeepsUnaccepted(first.state, tail, p);
    }
  }


  /** The paths of `plan` whose registration the host accepts, in plan order. */
  function AcceptedPaths(plan: seq<Planned>): seq<string>
    decreases |plan|
  {
    if plan == [] then []
    else (if plan[0].reg.Accepted? then [plan[0].path] else []) + AcceptedPaths(plan[1..])
  }

  /**
   Without a missing export, and with every planned path distinct and not yet
   indexed, the pass appends exactly the accepted paths to the index, in plan
   order.
   */
  lemma {:induction false} RegisterEachKeys(b: Bridge.Bridge, plan: seq<Planned>)
    requires forall i :: 0 <= i < |plan| ==> !plan[i].reg.MissingExport?
    requires forall i, j :: 0 <= i < j < |plan| ==> plan[i].path != plan[j].path
    requires forall i :: 0 <= i < |plan| ==> plan[i].path !in OrderedMap.Keys(b.index)
    ensures OrderedMap.Keys(RegisterEach(b, plan).state.index) == OrderedMap.Keys(b.index) + AcceptedPaths(plan)
    decreases |plan|
  {
    if plan == [] {
      assert OrderedMap.Keys(b.index) + [] == OrderedMap.Keys(b.index);
    } else {
      var first := Bridge.Apply(b, plan[0].path, plan[0].reg, plan[0].lookups);
      var tail := plan[1..];
      var head := if plan[0].reg.Accepted? then [plan[0].path] else [];
      RegisterEachStep(b, plan);
      ApplyKeys(b, plan[0].path, plan[0].reg, plan[0].lookups);
      assert forall i :: 0 <= i < |tail| ==> tail[i] == plan[i + 1];
      forall i | 0 <= i < |tail|
        ensures tail[i].path !in OrderedMap.Keys(first.state.index)
      {
        assert tail[i].path != plan[0].path;
      }
      RegisterEachKeys(first.state, tail);
      assert AcceptedPaths(plan) == head + AcceptedPaths(tail);
      ConcatAssociative(OrderedMap.Keys(b.index), head, AcceptedPaths(tail));
    }
  }

  /** A registration that lets nothing escape appends its path to the index keys iff the command was added. */
  lemma ApplyKeys(b: Bridge.Bridge, relativePath: string, reg: Bridge.Registration, lookups: seq<Effect>)
    requires !reg.MissingExport? && relativePath !in OrderedMap.Keys(b.index)
    ensures OrderedMap.Keys(Bridge.Apply(b, relativePath, reg, lookups).state.index) ==
      OrderedMap.Keys(b.index) + if reg.Accepted? then [relativePath] else []
  {
    if reg.Accepted? {
      OrderedMap.SetKeys(b.index, relativePath, reg.command.id);
    } else {
      assert OrderedMap.Keys(b.index) + [] == OrderedMap.Keys(b.index);
    }
  }

  /** The pass only adds commands: its outcome does not depend on the host's other commands. */
  lemma {:induction false} RegisterEachFrame(c: map<string, Bridge.Command>, index: OrderedMap.Map<string, string>, plan: seq<Planned>)
    ensures var e := RegisterEach(Bridge.Bridge(map[], index), plan);
      RegisterEach(Bridge.Bridge(c, index), plan) == Step(Bridge.Bridge(c + e.state.commands, e.state.index), e.effects, e.thrown)
    decreases |plan|
  {
    if plan == [] {
      assert c + map[] == c;
    } else {
      var one := Bridge.Apply(Bridge.Bridge(map[], index), plan[0].path, plan[0].reg, plan[0].lookups);
      Bridge.ApplyFrame(c, index, plan[0].path, plan[0].reg, plan[0].lookups);
      if plan[0].reg.MissingExport? {
        assert c + map[] == c;
      } else {
        var added := one.state.commands;
        var index' := one.state.index;
        assert one.state == Bridge.Bridge(added, index');
        RegisterEachStep(Bridge.Bridge(map[], index), plan);
        RegisterEachStep(Bridge.Bridge(c, index), plan);
        RegisterEachFrame(c + added, index', plan[1..]);
        RegisterEachFrame(added, index', plan[1..]);
        var tailE := RegisterEach(Bridge.Bridge(map[], index'), plan[1..]);
        UnionAssociative(c, added, tailE.state.commands);
      }
    }
  }

  lemma UnionAssociative<K, V>(a: map<K, V>, b: map<K, V>, c: map<K, V>)
    ensures (a + b) + c == a + (b + c)
  {
    assert forall k :: k in (a + b) + c <==> k in a + (b + c);
    assert forall k :: k in (a + b) + c ==> ((a + b) + c)[k] == (a + (b + c))[k];
  }

  lemma {:induction false} RegisterEachKeepsTracked(b: Bridge.Bridge, plan: seq<Planned>)
    requires Bridge.Tracked(b)
    ensures Bridge.Tracked(RegisterEach(b, plan).state)
    decreases |plan|
  {
    if plan != [] {
      var first := Bridge.Apply(b, plan[0].path, plan[0].reg, plan[0].lookups);
      Bridge.ApplyKeepsTracked(b, plan[0].path, plan[0].reg, plan[0].lookups);
      RegisterEachKeepsTracked(first.state, plan[1..]);
    }
  }

  /**
   `registerInvocableScripts`: the commands of the previous pass are removed
   first; then an unset folder ends the pass silently, a missing folder is
   reported, and otherwise every discovered script is registered in
   discovery order.
   */
  function RegisterInvocableScripts(b: Bridge.Bridge, app: App, scriptsFolder: string, le: (string, string) -> bool): (r: Step<Bridge.Bridge>)
    ensures |b.index| <= |r.effects|
    ensures forall i :: 0 <= i < |b.index| ==> r.effects[i] == CommandRemoved(b.index[i].1)
  {
    var cleared := Bridge.UnregisterInvocableCommands(b);
    if scriptsFolder == "" then cleared
    else if !app.pathExists(scriptsFolder) then
      var message := "Invocable scripts folder not found: " + scriptsFolder;
      Step(cleared.state, cleared.effects + [Notice(message), ConsoleError(message)], None)
    else
      var paths := DiscoverScripts(app, scriptsFolder, le);
      var pass := RegisterEach(cleared.state, Plan(app, scriptsFolder, paths));
      Step(pass.state, cleared.effects + pass.effects, pass.thrown)
  }
  /**
   Without a usable scripts folder the pass only removes the previous
   commands: an unset folder silently, a missing one with one notice and one
   console error naming it. Nothing is added and nothing escapes.
   */
  lemma UnusableFolderRegistersNothing(b: Bridge.Bridge, app: App, scriptsFolder: string, le: (string, string) -> bool)
    requires scriptsFolder == "" || !app.pathExists(scriptsFolder)
    ensures var r := RegisterInvocableScripts(b, app, scriptsFolder, le);
      && r.state == Bridge.Bridge(b.commands - Bridge.IndexedIds(b.index), [])
      && r.thrown.None?
      && (forall e :: e in r.effects ==> !e.CommandAdded?)
      && Count(r.effects, IsNotice) == Count(r.effects, IsConsoleError) == (if scriptsFolder == "" then 0 else 1)
      && (scriptsFolder != "" ==>
            r.effects[|b.index|..] == [Notice("Invocable scripts folder not found: " + scriptsFolder),
                                       ConsoleError("Invocable scripts folder not found: " + scriptsFolder)])
  {
    var cleared := Bridge.UnregisterInvocableCommands(b);
    assert Count(cleared.effects, IsNotice) == 0 && Count(cleared.effects, IsConsoleError) == 0;
    if scriptsFolder != "" {
      var message := "Invocable scripts folder not found: " + scriptsFolder;
      var reported := [Notice(message), ConsoleError(message)];
      CountAppend(cleared.effects, reported, IsNotice);
      CountAppend(cleared.effects, reported, IsConsoleError);
      assert RegisterInvocableScripts(b, app, scriptsFolder, le).effects == cleared.effects + reported;
    }
  }


  /** An error escapes the pass exactly when the folder exists and some discovered script misses its export. */
  lemma PassThrows(b: Bridge.Bridge, app: App, scriptsFolder: string, le: (string, string) -> bool)
    ensures RegisterInvocableScripts(b, app, scriptsFolder, le).thrown.Some? <==>
      && scriptsFolder != "" && app.pathExists(scriptsFolder)
      && exists i :: 0 <= i < |DiscoverScripts(app, scriptsFolder, le)| && MissesExport(app, scriptsFolder, DiscoverScripts(app, scriptsFolder, le)[i])
  {
    if scriptsFolder != "" && app.pathExists(scriptsFolder) {
      var paths := DiscoverScripts(app, scriptsFolder, le);
      var plan := Plan(app, scriptsFolder, paths);
      RegisterEachThrows(Bridge.UnregisterInvocableCommands(b).state, plan);
      assert forall i :: 0 <= i < |paths| ==> plan[i].reg == Bridge.RegistrationOf(app, scriptsFolder, paths[i]);
    }
  }

  /** Without a missing export, the pass indexes exactly the discovered scripts the host accepted. */
  lemma PassIndexesAcceptedScripts(b: Bridge.Bridge, app: App, scriptsFolder: string, le: (string, string) -> bool, p: string)
    requires scriptsFolder != "" && app.pathExists(scriptsFolder)
    requires forall i :: 0 <= i < |DiscoverScripts(app, scriptsFolder, le)| ==> !MissesExport(app, scriptsFolder, DiscoverScripts(app, scriptsFolder, le)[i])
    ensures OrderedMap.Get(RegisterInvocableScripts(b, app, scriptsFolder, le).state.index, p) ==
      if p in DiscoverScripts(app, scriptsFolder, le) && Bridge.RegistrationOf(app, scriptsFolder, p).Accepted?
      then Some(Bridge.RegistrationOf(app, scriptsFolder, p).command.id)
      else None
  {
    var paths := DiscoverScripts(app, scriptsFolder, le);
    var plan := Plan(app, scriptsFolder, paths);
    var cleared := Bridge.UnregisterInvocableCommands(b);
    PlanConsistent(app, scriptsFolder, paths);
    RegisterEachIndex(cleared.state, plan, p);
    if p in paths {
      var i :| 0 <= i < |paths| && paths[i] == p;
      assert plan[i].path == p;
    }
  }

  /** The discovered paths the host accepts, in discovery order. */
  function AcceptedScripts(app: App, scriptsFolder: string, paths: seq<string>): seq<string>
  {
    if paths == [] then []
    else
      var head := if Bridge.RegistrationOf(app, scriptsFolder, paths[0]).Accepted? then [paths[0]] else [];
      head + AcceptedScripts(app, scriptsFolder, paths[1..])
  }

  lemma {:induction false} PlanAccepted(app: App, scriptsFolder: string, paths: seq<string>)
    ensures AcceptedPaths(Plan(app, scriptsFolder, paths)) == AcceptedScripts(app, scriptsFolder, paths)
  {
    if paths != [] {
      assert Plan(app, scriptsFolder, paths)[1..] == Plan(app, scriptsFolder, paths[1..]);
      PlanAccepted(app, scriptsFolder, paths[1..]);
    }
  }

  /**
   Without a missing export, and with no path discovered twice, the pass
   leaves the index keyed by the accepted scripts in discovery order.
   */
  lemma PassIndexOrder(b: Bridge.Bridge, app: App, scriptsFolder: string, le: (string, string) -> bool)
    requires scriptsFolder != "" && app.pathExists(scriptsFolder)
    requires forall i :: 0 <= i < |DiscoverScripts(app, scriptsFolder, le)| ==> !MissesExport(app, scriptsFolder, DiscoverScripts(app, scriptsFolder, le)[i])
    requires forall i, j :: 0 <= i < j < |DiscoverScripts(app, scriptsFolder, le)| ==> DiscoverScripts(app, scriptsFolder, le)[i] != DiscoverScripts(app, scriptsFolder, le)[j]
    ensures OrderedMap.Keys(RegisterInvocableScripts(b, app, scriptsFolder, le).state.index) ==
      AcceptedScripts(app, scriptsFolder, DiscoverScripts(app, scriptsFolder, le))
  {
    PlanIndexOrder(Bridge.UnregisterInvocableCommands(b).state, app, scriptsFolder, DiscoverScripts(app, scriptsFolder, le));
  }

  lemma PlanIndexOrder(c: Bridge.Bridge, app: App, scriptsFolder: string, paths: seq<string>)
    requires c.index == []
    requires forall i :: 0 <= i < |paths| ==> !MissesExport(app, scriptsFolder, paths[i])
    requires forall i, j :: 0 <= i < j < |paths| ==> paths[i] != paths[j]
    ensures OrderedMap.Keys(RegisterEach(c, Plan(app, scriptsFolder, paths)).state.index) == AcceptedScripts(app, scriptsFolder, paths)
  {
    var plan := Plan(app, scriptsFolder, paths);
    assert OrderedMap.Keys(c.index) == [];
    RegisterEachKeys(c, plan);
    PlanAccepted(app, scriptsFolder, paths);
  }

  /** A missing export of the `k`-th discovered script ends the pass after the scripts before it. */
  lemma MissingExportAbortsRegistration(b: Bridge.Bridge, app: App, scriptsFolder: string, le: (string, string) -> bool, k: nat)
    requires scriptsFolder != "" && app.pathExists(scriptsFolder)
    requires var paths := DiscoverScripts(app, scriptsFolder, le);
      && k < |paths| && MissesExport(app, scriptsFolder, paths[k])
      && forall i :: 0 <= i < k ==> !MissesExport(app, scriptsFolder, paths[i])
    ensures var paths := DiscoverScripts(app, scriptsFolder, le);
      var r := RegisterInvocableScripts(b, app, scriptsFolder, le);
      && r.state == RegisterEach(Bridge.UnregisterInvocableCommands(b).state, Plan(app, scriptsFolder, paths[..k])).state
      && r.thrown == Some(Bridge.RegistrationOf(app, scriptsFolder, paths[k]).error)
  {
    PlanAbortsAt(Bridge.UnregisterInvocableCommands(b).state, app, scriptsFolder, DiscoverScripts(app, scriptsFolder, le), k);
  }

  lemma PlanAbortsAt(c: Bridge.Bridge, app: App, scriptsFolder: string, paths: seq<string>, k: nat)
    requires k < |paths| && MissesExport(app, scriptsFolder, paths[k])
    requires forall i :: 0 <= i < k ==> !MissesExport(app, scriptsFolder, paths[i])
    ensures var pass := RegisterEach(c, Plan(app, scriptsFolder, paths));
      && pass.state == RegisterEach(c, Plan(app, scriptsFolder, paths[..k])).state
      && pass.thrown == Some(Bridge.RegistrationOf(app, scriptsFolder, paths[k]).error)
  {
    var plan := Plan(app, scriptsFolder, paths);
    assert plan[..k] == Plan(app, scriptsFolder, paths[..k]);
    MissingExportAbortsPass(c, plan, k);
  }

  /** Removing keys the added map redefines, then adding it again, changes nothing. */
  lemma RemoveThenAdd(x: map<string, Bridge.Command>, a: map<string, Bridge.Command>, v: set<string>)
    requires v <= a.Keys
    ensures ((x + a) - v) + a == x + a
  {
  }

  /** Running the pass a second time, with nothing changed, leaves the commands and the index as the first pass left them. */
  lemma PassIdempotent(b: Bridge.Bridge, app: App, scriptsFolder: string, le: (string, string) -> bool)
    ensures var first := RegisterInvocableScripts(b, app, scriptsFolder, le);
      var second := RegisterInvocableScripts(first.state, app, scriptsFolder, le);
      second.state == first.state && second.thrown == first.thrown
  {
    var first := RegisterInvocableScripts(b, app, scriptsFolder, le);
    if scriptsFolder == "" || !app.pathExists(scriptsFolder) {
      assert Bridge.IndexedIds([]) == {};
    } else {
      var plan := Plan(app, scriptsFolder, DiscoverScripts(app, scriptsFolder, le));
      var c0 := b.commands - Bridge.IndexedIds(b.index);
      var e := RegisterEach(Bridge.Bridge(map[], []), plan);
      RegisterEachFrame(c0, [], plan);
      assert first.state == Bridge.Bridge(c0 + e.state.commands, e.state.index);
      RegisterEachKeepsTracked(Bridge.Bridge(map[], []), plan);
      var c1 := (c0 + e.state.commands) - Bridge.IndexedIds(e.state.index);
      RegisterEachFrame(c1, [], plan);
      RemoveThenAdd(c0, e.state.commands, Bridge.IndexedIds(e.state.index));
    }
  }

  // ---------------------------------------------------------------- chooser

  /** Chooser items starting with this are messages, not scripts. */
  const ErrorItemPrefix := "Error:"

  /** The items the script chooser offers: the discovered scripts, or one error item saying why there are none. */
  function ChooserItems(app: App, scriptsFolder: string, le: (string, string) -> bool): (items: seq<string>)
    ensures scriptsFolder == "" ==> items == [ErrorItemPrefix + " No Invocable scripts folder specified in the settings"]
    ensures scriptsFolder != "" && !app.pathExists(scriptsFolder) ==>
      items == [ErrorItemPrefix + " Invocable scripts folder not found: " + scriptsFolder]
    ensures scriptsFolder != "" && app.pathExists(scriptsFolder) ==>
      && items == DiscoverScripts(app, scriptsFolder, le)
      && forall p :: p in items ==> app.noteSettings(Join(scriptsFolder, p)).isInvocable || HasScriptExtension(Basename(p))
  {
    if scriptsFolder == "" then [ErrorItemPrefix + " No Invocable scripts folder specified in the settings"]
    else if app.pathExists(scriptsFolder) then
      DiscoveredAreScripts(app, scriptsFolder, le);
      DiscoverScripts(app, scriptsFolder, le)
    else [ErrorItemPrefix + " Invocable scripts folder not found: " + scriptsFolder]
  }

  /**
   `selectAndInvokeScript`: `pick` is the index of the item the user chose,
   or none when the chooser was dismissed. An error item is ignored; any
   other item is invoked through its registered command.
   */
  function SelectAndInvoke(b: Bridge.Bridge, app: App, scriptsFolder: string, le: (string, string) -> bool, pick: Option<nat>): (r: Report)
    requires pick.Some? ==> pick.value < |ChooserItems(app, scriptsFolder, le)|
    ensures pick.None? ==> r == Report([ConsoleDebug("No script selected")], None)
    ensures pick.Some? ==>
      var item := ChooserItems(app, scriptsFolder, le)[pick.value];
      r == if StartsWith(item, ErrorItemPrefix) then Report([], None) else Bridge.InvokeScriptPath(b, item)
  {
    match pick
    case None => Report([ConsoleDebug("No script selected")], None)
    case Some(i) =>
      var item := ChooserItems(app, scriptsFolder, le)[i];
      if StartsWith(item, ErrorItemPrefix) then Report([], None) else Bridge.InvokeScriptPath(b, item)
  }

  /** Without a usable scripts folder, whatever is picked runs nothing, reports nothing and throws nothing. */
  lemma UnusableFolderInvokesNothing(b: Bridge.Bridge, app: App, scriptsFolder: string, le: (string, string) -> bool, pick: Option<nat>)
    requires scriptsFolder == "" || !app.pathExists(scriptsFolder)
    requires pick.Some? ==> pick.value < |ChooserItems(app, scriptsFolder, le)|
    ensures var r := SelectAndInvoke(b, app, scriptsFolder, le, pick);
      && r.thrown.None?
      && forall e :: e in r.effects ==> e == ConsoleDebug("No script selected")
  {
    var items := ChooserItems(app, scriptsFolder, le);
    if pick.Some? {
      var rest := items[pick.value][|ErrorItemPrefix|..];
      assert items[pick.value] == ErrorItemPrefix + rest;
      assert (ErrorItemPrefix + rest)[..|ErrorItemPrefix|] == ErrorItemPrefix;
    }
  }

  /** Picking a discovered script invokes it by its path, unless that path itself reads as an error item. */
  lemma PickedScriptIsInvoked(b: Bridge.Bridge, app: App, scriptsFolder: string, le: (string, string) -> bool, i: nat)
    requires scriptsFolder != "" && app.pathExists(scriptsFolder)
    requires i < |DiscoverScripts(app, scriptsFolder, le)|
    ensures var p := DiscoverScripts(app, scriptsFolder, le)[i];
      var r := SelectAndInvoke(b, app, scriptsFolder, le, Some(i));
      && (!StartsWith(p, ErrorItemPrefix) ==> r.effects[0] == ConsoleDebug("Invoking script: " + p + "."))
      && (StartsWith(p, ErrorItemPrefix) ==> r == Report([], None))
  {
  }
}
