/**
 The desktop watcher of the invocable-scripts folder. It holds at most one
 recursive watch of the folder; a change seen by the watch stops it, runs
 the change callback (the registration pass), and then starts watching
 again, whether or not the callback failed.

 Besides the handle the watcher holds, the model keeps the set of watches
 the operating system has open (`live`), which the source does not track:
 it is what shows that a change never leaves two watches open, and that
 starting twice without a stop would.
 */
module ScriptFolderWatcher {
  import opened Effects

  /** The configured scripts folder when it is read, and whether the vault has it then. An empty path means none is configured. */
  datatype Folder = Folder(path: string, present: bool)

  /** The handle held, the watches open, and the next handle to hand out. */
  datatype Watcher = Watcher(handle: Option<nat>, live: set<nat>, next: nat)

  /** What `startWatcher` left, emitted and returned. */
  datatype Start = Start(watcher: Watcher, effects: seq<Effect>, started: bool)

  const Idle := Watcher(None, {}, 0)

  /** The held handle is open, and every open watch has a handle already handed out. */
  ghost predicate Wf(w: Watcher)
  {
    && (w.handle.Some? ==> w.handle.value in w.live)
    && forall h :: h in w.live ==> h < w.next
  }

  /** No watch is open but the one held. */
  ghost predicate Tidy(w: Watcher)
  {
    w.live == if w.handle.Some? then {w.handle.value} else {}
  }

  lemma IdleIsTidy()
    ensures Wf(Idle) && Tidy(Idle)
  {
  }

  /**
   `startWatcher`: nothing without a configured folder; a report without
   the folder in the vault; otherwise a new watch, which it holds.
   */
  function StartWatcher(w: Watcher, folder: Folder): (r: Start)
    ensures r.started <==> folder.path != "" && folder.present
    ensures !r.started ==> r.watcher == w
    ensures folder.path == "" ==> r.effects == []
    ensures folder.path != "" && !folder.present ==>
      && Count(r.effects, IsNotice) == 1
      && Count(r.effects, IsConsoleError) == 1
      && Notice("Invocable scripts folder not found: " + folder.path) in r.effects
    ensures r.started ==>
      && r.watcher.handle == Some(w.next)
      && (Wf(w) ==> w.next !in w.live)
      && r.watcher.live == w.live + {w.next}
      && r.effects == [WatchOpened(w.next)]
    ensures Wf(w) ==> Wf(r.watcher)
  {
    if folder.path == "" then Start(w, [], false)
    else if !folder.present then
      var message := "Invocable scripts folder not found: " + folder.path;
      var notice := [Notice(message)];
      CountAppend(notice, [ConsoleError(message)], IsNotice);
      CountAppend(notice, [ConsoleError(message)], IsConsoleError);
      Start(w, notice + [ConsoleError(message)], false)
    else Start(Watcher(Some(w.next), w.live + {w.next}, w.next + 1), [WatchOpened(w.next)], true)
  }

  /** `stopWatcher`: closes and drops the held watch, if any. */
  function StopWatcher(w: Watcher): (r: (Watcher, seq<Effect>))
    ensures r.0.handle.None?
    ensures r.0.next == w.next
    ensures w.handle.None? ==> r == (w, [])
    ensures w.handle.Some? ==> r.0.live == w.live - {w.handle.value} && r.1 == [WatchClosed(w.handle.value)]
    ensures Wf(w) ==> Wf(r.0)
  {
    match w.handle
    case None => (w, [])
    case Some(h) => (Watcher(None, w.live - {h}, w.next), [WatchClosed(h)])
  }

  /** Stopping is idempotent: a second stop changes nothing and emits nothing. */
  lemma StopIdempotent(w: Watcher)
    ensures var once := StopWatcher(w).0;
      StopWatcher(once) == (once, [])
  {
  }

  /**
   A change seen by the watch: stop, run the change callback, then, in every
   case, start again with the folder as configured at that moment. The
   callback's error escapes after the restart.
   */
  function HandleChange(w: Watcher, onChange: Outcome, folder: Folder): (r: Step<Watcher>)
    ensures r.thrown == (if onChange.Throws? then Some(onChange.error) else None)
    ensures r.state.handle.Some? <==> folder.path != "" && folder.present
    ensures Wf(w) ==> Wf(r.state)
  {
    var (stopped, closed) := StopWatcher(w);
    var restart := StartWatcher(stopped, folder);
    Step(restart.watcher, closed + [ChangeHandled] + restart.effects,
         if onChange.Throws? then Some(onChange.error) else None)
  }

  /**
   The order of a change's effects: the held watch is closed before the
   callback runs, and the new watch is opened only after it.
   */
  lemma ChangeStopsFirst(w: Watcher, onChange: Outcome, folder: Folder)
    ensures var r := HandleChange(w, onChange, folder);
      var k := if w.handle.Some? then 1 else 0;
      && |r.effects| > k
      && (w.handle.Some? ==> r.effects[0] == WatchClosed(w.handle.value))
      && r.effects[k] == ChangeHandled
      && (folder.path != "" && folder.present ==> r.effects[k + 1..] == [WatchOpened(w.next)])
      && (forall i :: 0 <= i < k ==> !r.effects[i].WatchOpened?)
  {
  }

  /** Starting a held-free, tidy watcher and stopping it again leaves it as it was, but for the handle counter. */
  lemma StartThenStop(w: Watcher, folder: Folder)
    requires Wf(w) && Tidy(w) && w.handle.None?
    requires folder.path != "" && folder.present
    ensures var started := StartWatcher(w, folder).watcher;
      StopWatcher(started).0 == Watcher(None, w.live, w.next + 1)
  {
    var started := StartWatcher(w, folder).watcher;
    assert (w.live + {w.next}) - {w.next} == w.live;
  }

  /** A change never leaves more than the held watch open, whatever the callback does. */
  lemma ChangeKeepsTidy(w: Watcher, onChange: Outcome, folder: Folder)
    requires Wf(w) && Tidy(w)
    ensures Tidy(HandleChange(w, onChange, folder).state)
  {
    var stopped := StopWatcher(w).0;
    assert stopped.live == {};
  }

  lemma StopKeepsTidy(w: Watcher)
    requires Tidy(w)
    ensures Tidy(StopWatcher(w).0)
  {
  }

  /**
   Starting while a watch is held, without stopping it first, overwrites the
   handle: the old watch stays open and is no longer held.
   */
  lemma StartWhileHeldLeaks(w: Watcher, folder: Folder)
    requires Wf(w) && w.handle.Some?
    requires folder.path != "" && folder.present
    ensures var started := StartWatcher(w, folder).watcher;
      && w.handle.value in started.live
      && started.handle != w.handle
      && !Tidy(started)
  {
  }
}
