/**
 The observable effects of the script runtime, and the small result types
 shared by every component.

 Every operation of the runtime is modelled as a pure transition that returns
 its new state together with the sequence of effects it emitted: user-visible
 notices, console output, commands added to or removed from the host, style
 elements, and calls into script code. An error that escapes an operation is
 reported in the `thrown` field instead of being raised.
 */
module Effects {

  /** Conventional Some/None. */
  datatype Option<+T> = None | Some(value: T)
  {
    function GetOr(default: T): T
    {
      match this
      case Some(v) => v
      case None => default
    }
  }

  /** A value, or the message of the error raised while computing it. */
  datatype Result<+T> = Success(value: T) | Failure(error: string)

  /** What a call into script or host code did: return normally, or throw. */
  datatype Outcome = Returns | Throws(error: string)

  /** One entry of the trace an operation emits. */
  datatype Effect =
    | Notice(text: string)                  // `new Notice(text)`
    | ConsoleError(text: string)            // `console.error(text)`
    | ConsoleWarn(text: string)             // `console.warn(text)`
    | ConsoleDebug(text: string)            // `plugin.consoleDebug(text)`
    | PrintError(text: string)              // `printError(error)`, by the reported error's message
    | CommandAdded(id: string)              // the host's `addCommand`
    | CommandRemoved(id: string)            // the host's `removeCommand`
    | StyleAdded(id: string)                // a `style` element appended to the document head
    | StyleRemoved(id: string)              // that element removed
    | SettingsRead(path: string)            // a note's front-matter settings read
    | ModuleLoaded(key: string)             // `requireVaultScriptAsync(key)`
    | ScriptInvoked(key: string)            // a module's `invoke(app)` called
    | ScriptCleanedUp(key: string)          // a startup module's `cleanup(app)` called
    | CheckCalled(id: string, checking: bool) // a command's `checkCallback(checking)` called
    | CallbackCalled(id: string)            // a command's `callback()` called
    | PluginLoadCalled(handle: nat)         // a temp plugin's `load()` called
    | PluginUnloadCalled(handle: nat)       // a temp plugin's original `unload()` called
    | WatchOpened(handle: nat)              // a recursive folder watch opened
    | WatchClosed(handle: nat)              // that watch closed
    | ChangeHandled                         // the watcher's `onChange` callback called

  /** A transition: the new state, the effects emitted, and the error that escaped, if any. */
  datatype Step<S> = Step(state: S, effects: seq<Effect>, thrown: Option<string>)

  /** An operation that changes no tracked state. */
  datatype Report = Report(effects: seq<Effect>, thrown: Option<string>)

  predicate IsNotice(e: Effect) { e.Notice? }

  predicate IsPrintError(e: Effect) { e.PrintError? }

  predicate IsConsoleError(e: Effect) { e.ConsoleError? }

  /** The number of effects in `es` that satisfy `p`. */
  function Count(es: seq<Effect>, p: Effect -> bool): (n: nat)
    ensures n <= |es|
    ensures n == 0 <==> forall i :: 0 <= i < |es| ==> !p(es[i])
  {
    if es == [] then 0
    else (if p(es[0]) then 1 else 0) + Count(es[1..], p)
  }

  lemma {:induction false} CountAppend(a: seq<Effect>, b: seq<Effect>, p: Effect -> bool)
    ensures Count(a + b, p) == Count(a, p) + Count(b, p)
  {
    if a == [] {
      assert a + b == b;
    } else {
      assert (a + b)[1..] == a[1..] + b;
      CountAppend(a[1..], b, p);
    }
  }

  lemma ConcatAssociative<T>(a: seq<T>, b: seq<T>, c: seq<T>)
    ensures (a + b) + c == a + (b + c)
  {
  }
}
