/**
 The registry of temporary plugins: plugin classes that a code button
 registers at run time, kept in one map from registry id to instance.

 A registration unloads any instance already registered under the same id,
 constructs the new instance, stores it and loads it. Only a successful load
 installs the rest: a "Loaded" notice, an optional style element, a command
 that unloads the plugin, and a wrapper around the instance's `unload` that
 also removes the instance from the registry, the command and the style. A
 failed load is reported and leaves the bare instance in the registry.

 Plugin instances are identified by a handle the registry hands out; what a
 class's constructor, `load` and original `unload` do is given by the class.
 */
module TempPluginRegistry {
  import opened Effects
  import OrderedMap

  const IdPrefix := "__temp-plugin-"

  /** The class name used for a class whose `name` is empty. */
  const AnonymousClassName := "_AnonymousPlugin"

  const UnloadCommandIdPrefix := "unregister-temp-plugin-"

  /** The class name a registration uses: the class's own, or the anonymous one. */
  function ClassNameOf(name: string): (n: string)
    ensures n != ""
    ensures name != "" ==> n == name
  {
    if name == "" then AnonymousClassName else name
  }

  /** `makeTempPluginId`: the registry id (and style element id) of a class name. */
  function TempPluginId(className: string): (id: string)
    ensures |IdPrefix| <= |id| && id[..|IdPrefix|] == IdPrefix && id[|IdPrefix|..] == className
  {
    IdPrefix + className
  }

  /** Distinct class names have distinct registry ids. */
  lemma TempPluginIdInjective(a: string, b: string)
    requires a != b
    ensures TempPluginId(a) != TempPluginId(b)
  {
    assert TempPluginId(a)[|IdPrefix|..] == a;
    assert TempPluginId(b)[|IdPrefix|..] == b;
  }

  /** The id of the command that unloads the plugin of a class name. */
  function UnloadCommandId(className: string): string
  {
    UnloadCommandIdPrefix + className
  }

  /** What a temp-plugin class does: its name, and whether its constructor, `load` and original `unload` return or throw. */
  datatype PluginClass = PluginClass(name: string, construct: Outcome, load: Outcome, unload: Outcome)

  /** The `unload` wrapper a successful load installs; it remembers whether a style element was added. */
  datatype Wrapper = Wrapper(styled: bool)

  /** A constructed instance: its handle, the class name it was registered under, its original `unload`, and its wrapper once loaded. */
  datatype TempPlugin = TempPlugin(handle: nat, className: string, unload: Outcome, wrapper: Option<Wrapper>)

  /** The `tempPlugins` map, and the next instance handle. */
  datatype Registry = Registry(plugins: OrderedMap.Map<string, TempPlugin>, next: nat)

  /** Every entry sits under the id of its own, non-empty, class name, and has a handle already handed out. */
  ghost predicate Wf(reg: Registry)
  {
    && OrderedMap.Valid(reg.plugins)
    && forall i :: 0 <= i < |reg.plugins| ==>
      && reg.plugins[i].0 == TempPluginId(reg.plugins[i].1.className)
      && reg.plugins[i].1.className != ""
      && reg.plugins[i].1.handle < reg.next
  }

  const Empty := Registry([], 0)

  lemma EmptyWf()
    ensures Wf(Empty)
  {
  }

  /** The effects only a registration has: a load, an added command, an added style. */
  predicate Installs(e: Effect)
  {
    e.PluginLoadCalled? || e.CommandAdded? || e.StyleAdded?
  }

  /** What the wrapper does after the original `unload`: the command, the notice, then the style. */
  function Teardown(className: string, styled: bool): (es: seq<Effect>)
    ensures |es| == (if styled then 3 else 2)
    ensures es[0] == CommandRemoved(UnloadCommandId(className))
    ensures es[1] == Notice("Unregistered Temp Plugin: " + className + ".")
    ensures styled ==> es[2] == StyleRemoved(TempPluginId(className))
    ensures StyleRemoved(TempPluginId(className)) in es <==> styled
    ensures Count(es, IsNotice) == 1 && Count(es, IsPrintError) == 0
    ensures forall e :: e in es ==> !Installs(e) && !e.PluginUnloadCalled?
  {
    var base := [CommandRemoved(UnloadCommandId(className)), Notice("Unregistered Temp Plugin: " + className + ".")];
    var style := if styled then [StyleRemoved(TempPluginId(className))] else [];
    CountAppend(base, style, IsNotice);
    CountAppend(base, style, IsPrintError);
    base + style
  }

  /** How the wrapped `unload` reports the original `unload`: a failure by one notice and one printed error, a success not at all. */
  function UnloadFailure(className: string, unload: Outcome): (es: seq<Effect>)
    ensures Count(es, IsNotice) == Count(es, IsPrintError) == (if unload.Throws? then 1 else 0)
    ensures unload.Throws? ==> PrintError(unload.error) in es
    ensures forall e :: e in es ==> !Installs(e) && !e.PluginUnloadCalled?
  {
    match unload
    case Returns => []
    case Throws(e) =>
      var notice := [Notice("Failed to unload Temp Plugin: " + className + ". See console for details.")];
      CountAppend(notice, [PrintError(e)], IsNotice);
      CountAppend(notice, [PrintError(e)], IsPrintError);
      notice + [PrintError(e)]
  }

  /**
   Calling `unload` on an instance. A bare instance runs its original
   `unload`, whose error escapes. A wrapped one reports that error instead,
   and then always removes the instance's entry, its command and its style.
   */
  function Unload(reg: Registry, p: TempPlugin): (r: Step<Registry>)
    ensures |r.effects| > 0 && r.effects[0] == PluginUnloadCalled(p.handle)
    ensures p.wrapper.None? ==>
      && r.state == reg
      && r.effects == [PluginUnloadCalled(p.handle)]
      && r.thrown == (if p.unload.Throws? then Some(p.unload.error) else None)
    ensures p.wrapper.Some? ==>
      && r.thrown.None?
      && r.state == Registry(OrderedMap.Delete(reg.plugins, TempPluginId(p.className)), reg.next)
    ensures forall e :: e in r.effects ==> !Installs(e)
  {
    var called := [PluginUnloadCalled(p.handle)];
    match p.wrapper
    case None => Step(reg, called, if p.unload.Throws? then Some(p.unload.error) else None)
    case Some(w) =>
      var failure := UnloadFailure(p.className, p.unload);
      var teardown := Teardown(p.className, w.styled);
      Step(Registry(OrderedMap.Delete(reg.plugins, TempPluginId(p.className)), reg.next),
           called + failure + teardown, None)
  }

  /**
   The wrapped `unload` reports a failing original `unload` with one notice and
   one printed error, and in every case ends with the teardown.
   */
  lemma WrappedUnloadTearsDown(reg: Registry, p: TempPlugin)
    requires p.wrapper.Some?
    ensures var r := Unload(reg, p);
      var tail := Teardown(p.className, p.wrapper.value.styled);
      && |tail| <= |r.effects|
      && r.effects[|r.effects| - |tail|..] == tail
      && Count(r.effects, IsNotice) == (if p.unload.Throws? then 2 else 1)
      && Count(r.effects, IsPrintError) == (if p.unload.Throws? then 1 else 0)
      && OrderedMap.Get(r.state.plugins, TempPluginId(p.className)).None?
  {
    var head := [PluginUnloadCalled(p.handle)] + UnloadFailure(p.className, p.unload);
    var tail := Teardown(p.className, p.wrapper.value.styled);
    assert Unload(reg, p).effects == head + tail;
    EndsWithTeardown(head, tail);
    HeadCounts(p.handle, UnloadFailure(p.className, p.unload));
    CountAppend(head, tail, IsNotice);
    CountAppend(head, tail, IsPrintError);
  }

  lemma EndsWithTeardown(head: seq<Effect>, tail: seq<Effect>)
    ensures (head + tail)[|head + tail| - |tail|..] == tail
  {
  }

  lemma HeadCounts(handle: nat, failure: seq<Effect>)
    ensures Count([PluginUnloadCalled(handle)] + failure, IsNotice) == Count(failure, IsNotice)
    ensures Count([PluginUnloadCalled(handle)] + failure, IsPrintError) == Count(failure, IsPrintError)
  {
    CountAppend([PluginUnloadCalled(handle)], failure, IsNotice);
    CountAppend([PluginUnloadCalled(handle)], failure, IsPrintError);
  }


  /**
   Storing the constructed instance and loading it. The instance stored is
   the one the load leaves: the source stores the instance and, once it has
   loaded, replaces its `unload` in place, which the map cannot tell apart
   from storing the wrapped instance at once.
   */
  function StoreAndLoad(reg: Registry, cls: PluginClass, cssText: string): (r: Step<Registry>)
    ensures r.thrown.None?
    ensures var name := ClassNameOf(cls.name);
      && r.state.next == reg.next + 1
      && r.state.plugins == OrderedMap.Set(reg.plugins, TempPluginId(name),
           TempPlugin(reg.next, name, cls.unload, if cls.load.Returns? then Some(Wrapper(cssText != "")) else None))
    ensures var name := ClassNameOf(cls.name);
      cls.load.Throws? ==>
        r.effects == [PluginLoadCalled(reg.next), Notice("Failed to load Temp Plugin: " + name + ". See console for details."), PrintError(cls.load.error)]
    ensures var name := ClassNameOf(cls.name);
      cls.load.Returns? ==>
        && Notice("Loaded Temp Plugin: " + name + ".") in r.effects
        && CommandAdded(UnloadCommandId(name)) in r.effects
        && (StyleAdded(TempPluginId(name)) in r.effects <==> cssText != "")
  {
    var name := ClassNameOf(cls.name);
    var id := TempPluginId(name);
    var loading := [PluginLoadCalled(reg.next)];
    match cls.load
    case Throws(e) =>
      Step(Registry(OrderedMap.Set(reg.plugins, id, TempPlugin(reg.next, name, cls.unload, None)), reg.next + 1),
           loading + [Notice("Failed to load Temp Plugin: " + name + ". See console for details."), PrintError(e)], None)
    case Returns =>
      var style := if cssText != "" then [StyleAdded(id)] else [];
      Step(Registry(OrderedMap.Set(reg.plugins, id, TempPlugin(reg.next, name, cls.unload, Some(Wrapper(cssText != "")))), reg.next + 1),
           loading + [Notice("Loaded Temp Plugin: " + name + ".")] + style + [CommandAdded(UnloadCommandId(name))], None)
  }

  /** Unloading the instance already registered under `id`, if there is one. */
  function Evict(reg: Registry, id: string): (r: Step<Registry>)
    ensures r.thrown.Some? <==> OrderedMap.Get(reg.plugins, id).Some? && Escapes(OrderedMap.Get(reg.plugins, id).value)
    ensures r.state.next == reg.next
    ensures forall e :: e in r.effects ==> !Installs(e)
  {
    match OrderedMap.Get(reg.plugins, id)
    case None => Step(reg, [], None)
    case Some(existing) => Unload(reg, existing)
  }

  /** In a well-formed registry, evicting an id leaves every other entry alone. */
  lemma EvictFrame(reg: Registry, id: string)
    requires Wf(reg)
    ensures forall k :: k != id ==> OrderedMap.Get(Evict(reg, id).state.plugins, k) == OrderedMap.Get(reg.plugins, k)
  {
    var found := OrderedMap.Get(reg.plugins, id);
    if found.Some? {
      assert (id, found.value) in reg.plugins;
    }
  }

  /**
   `registerTempPlugin`. The error of a bare instance's `unload` or of the
   constructor escapes; the load's never does.
   */
  function Register(reg: Registry, cls: PluginClass, cssText: string): (r: Step<Registry>)
    ensures var existing := OrderedMap.Get(reg.plugins, TempPluginId(ClassNameOf(cls.name)));
      r.thrown.Some? <==> (existing.Some? && Escapes(existing.value)) || cls.construct.Throws?
  {
    var before := Evict(reg, TempPluginId(ClassNameOf(cls.name)));
    if before.thrown.Some? then before
    else if cls.construct.Throws? then Step(before.state, before.effects, Some(cls.construct.error))
    else
      var loaded := StoreAndLoad(before.state, cls, cssText);
      Step(loaded.state, before.effects + loaded.effects, None)
  }

  /**
   A registration that lets nothing escape leaves the new instance under the
   class's id, wrapped exactly when it loaded, and every other entry as it was.
   */
  lemma RegisterStores(reg: Registry, cls: PluginClass, cssText: string)
    requires Wf(reg)
    requires Register(reg, cls, cssText).thrown.None?
    ensures var name := ClassNameOf(cls.name);
      var r := Register(reg, cls, cssText);
      && OrderedMap.Get(r.state.plugins, TempPluginId(name)) ==
           Some(TempPlugin(reg.next, name, cls.unload, if cls.load.Returns? then Some(Wrapper(cssText != "")) else None))
      && forall k :: k != TempPluginId(name) ==> OrderedMap.Get(r.state.plugins, k) == OrderedMap.Get(reg.plugins, k)
  {
    EvictFrame(reg, TempPluginId(ClassNameOf(cls.name)));
  }

  /**
   What a registration that lets nothing escape reports: a failed load one
   notice and one printed error and nothing else of its own; a successful
   load the "Loaded" notice, the unload command, and a style exactly when
   there is CSS text.
   */
  lemma RegisterReports(reg: Registry, cls: PluginClass, cssText: string)
    requires Register(reg, cls, cssText).thrown.None?
    ensures var name := ClassNameOf(cls.name);
      var r := Register(reg, cls, cssText);
      && (cls.load.Throws? ==>
            && Notice("Failed to load Temp Plugin: " + name + ". See console for details.") in r.effects
            && PrintError(cls.load.error) in r.effects
            && CommandAdded(UnloadCommandId(name)) !in r.effects
            && StyleAdded(TempPluginId(name)) !in r.effects)
      && (cls.load.Returns? ==>
            && Notice("Loaded Temp Plugin: " + name + ".") in r.effects
            && CommandAdded(UnloadCommandId(name)) in r.effects
            && (StyleAdded(TempPluginId(name)) in r.effects <==> cssText != ""))
  {
    var before := Evict(reg, TempPluginId(ClassNameOf(cls.name)));
    assert Register(reg, cls, cssText).effects == before.effects + StoreAndLoad(before.state, cls, cssText).effects;
    LoadReports(before.effects, before.state, cls, cssText);
  }

  /** What the load adds to a trace that installed nothing before it. */
  lemma LoadReports(before: seq<Effect>, reg: Registry, cls: PluginClass, cssText: string)
    requires forall e :: e in before ==> !Installs(e)
    ensures var name := ClassNameOf(cls.name);
      var es := before + StoreAndLoad(reg, cls, cssText).effects;
      && (cls.load.Throws? ==>
            && Notice("Failed to load Temp Plugin: " + name + ". See console for details.") in es
            && PrintError(cls.load.error) in es
            && CommandAdded(UnloadCommandId(name)) !in es
            && StyleAdded(TempPluginId(name)) !in es)
      && (cls.load.Returns? ==>
            && Notice("Loaded Temp Plugin: " + name + ".") in es
            && CommandAdded(UnloadCommandId(name)) in es
            && (StyleAdded(TempPluginId(name)) in es <==> cssText != ""))
  {
    var name := ClassNameOf(cls.name);
    var loaded := StoreAndLoad(reg, cls, cssText);
    assert CommandAdded(UnloadCommandId(name)) !in before;
    assert StyleAdded(TempPluginId(name)) !in before;
    if cls.load.Throws? {
      assert loaded.effects[1] == Notice("Failed to load Temp Plugin: " + name + ". See console for details.");
      assert loaded.effects[2] == PrintError(cls.load.error);
    }
  }

  /**
   Registering over an instance whose `unload` lets nothing escape calls that
   `unload` first and loads the new instance only afterwards; a wrapped old
   instance has removed its unload command by then.
   */
  lemma RegisterUnloadsFirst(reg: Registry, cls: PluginClass, cssText: string)
    requires OrderedMap.Get(reg.plugins, TempPluginId(ClassNameOf(cls.name))).Some?
    requires !Escapes(OrderedMap.Get(reg.plugins, TempPluginId(ClassNameOf(cls.name))).value)
    requires cls.construct.Returns?
    ensures var prev := OrderedMap.Get(reg.plugins, TempPluginId(ClassNameOf(cls.name))).value;
      var r := Register(reg, cls, cssText);
      && r.effects[0] == PluginUnloadCalled(prev.handle)
      && exists k :: 0 < k < |r.effects| && r.effects[k] == PluginLoadCalled(reg.next)
           && (prev.wrapper.Some? ==> CommandRemoved(UnloadCommandId(prev.className)) in r.effects[..k])
  {
    var prev := OrderedMap.Get(reg.plugins, TempPluginId(ClassNameOf(cls.name))).value;
    var before := Unload(reg, prev);
    var loaded := StoreAndLoad(before.state, cls, cssText);
    var r := Register(reg, cls, cssText);
    assert r.effects == before.effects + loaded.effects;
    var k := |before.effects|;
    assert r.effects[k] == loaded.effects[0] == PluginLoadCalled(reg.next);
    assert r.effects[..k] == before.effects;
    if prev.wrapper.Some? {
      var head := [PluginUnloadCalled(prev.handle)] + UnloadFailure(prev.className, prev.unload);
      var tail := Teardown(prev.className, prev.wrapper.value.styled);
      assert before.effects == head + tail;
      assert before.effects[|head|] == tail[0];
    }
  }

  /** `unregisterTempPlugin`: by the class name as given, without the anonymous fallback. */
  function Unregister(reg: Registry, className: string): (r: Step<Registry>)
    ensures OrderedMap.Get(reg.plugins, TempPluginId(className)).None? ==>
      r == Step(reg, [Notice("Temp Plugin was not registered: " + className + ".")], None)
    ensures OrderedMap.Get(reg.plugins, TempPluginId(className)).Some? ==>
      var p := OrderedMap.Get(reg.plugins, TempPluginId(className)).value;
      |r.effects| > 0 && r.effects[0] == PluginUnloadCalled(p.handle)
  {
    match OrderedMap.Get(reg.plugins, TempPluginId(className))
    case None => Step(reg, [Notice("Temp Plugin was not registered: " + className + ".")], None)
    case Some(p) => Unload(reg, p)
  }

  /** Unloads each instance of a snapshot in turn; an escaping error stops the rest. */
  function UnloadEach(reg: Registry, ps: seq<TempPlugin>): Step<Registry>
    decreases |ps|
  {
    if ps == [] then Step(reg, [], None)
    else
      var first := Unload(reg, ps[0]);
      if first.thrown.Some? then first
      else
        var rest := UnloadEach(first.state, ps[1..]);
        Step(rest.state, first.effects + rest.effects, rest.thrown)
  }

  /** `unloadTempPlugins`: `unload` on every instance, in registry order; it throws iff some instance's `unload` lets an error escape. */
  function UnloadAll(reg: Registry): (r: Step<Registry>)
    ensures r.thrown.Some? <==> exists i :: 0 <= i < |reg.plugins| && Escapes(reg.plugins[i].1)
  {
    var ps := OrderedMap.Values(reg.plugins);
    UnloadEachThrows(reg, ps);
    assert forall i :: 0 <= i < |ps| ==> ps[i] == reg.plugins[i].1;
    UnloadEach(reg, ps)
  }

  /** The instances whose `unload` lets an error escape: bare ones whose original `unload` throws. */
  predicate Escapes(p: TempPlugin)
  {
    p.wrapper.None? && p.unload.Throws?
  }

  /** Unloading a snapshot lets an error escape exactly when one of its instances does. */
  lemma {:induction false} UnloadEachThrows(reg: Registry, ps: seq<TempPlugin>)
    ensures UnloadEach(reg, ps).thrown.Some? <==> exists i :: 0 <= i < |ps| && Escapes(ps[i])
    decreases |ps|
  {
    if ps != [] && !Escapes(ps[0]) {
      UnloadEachThrows(Unload(reg, ps[0]).state, ps[1..]);
      assert forall i :: 0 < i < |ps| ==> ps[i] == ps[1..][i - 1];
    }
  }

  /** The registry ids of a snapshot's instances. */
  function SnapshotIds(ps: seq<TempPlugin>): set<string>
  {
    set i | 0 <= i < |ps| :: TempPluginId(ps[i].className)
  }

  /** Unloading loaded instances removes exactly their entries and lets nothing escape. */
  lemma UnloadEachDeletes(reg: Registry, ps: seq<TempPlugin>)
    requires forall i :: 0 <= i < |ps| ==> ps[i].wrapper.Some?
    ensures UnloadEach(reg, ps).thrown.None?
    ensures UnloadEach(reg, ps).state.next == reg.next
    ensures forall e :: e in UnloadEach(reg, ps).state.plugins <==> e in reg.plugins && e.0 !in SnapshotIds(ps)
  {
    UnloadEachKeepsBare(reg, ps);
    assert WrappedIds(ps) == SnapshotIds(ps);
  }

  /** A map without entries is empty. */
  lemma NoEntriesIsEmpty<K, V>(m: OrderedMap.Map<K, V>)
    requires forall e :: e !in m
    ensures m == []
  {
    forall e
      ensures multiset(m)[e] == 0
    {
      assert e !in m;
    }
    assert multiset(m) == multiset{};
    assert |multiset(m)| == |m|;
  }

  /** When every registered instance has loaded, `unloadTempPlugins` empties the registry and lets nothing escape. */
  lemma UnloadAllEmptiesLoaded(reg: Registry)
    requires Wf(reg)
    requires forall i :: 0 <= i < |reg.plugins| ==> reg.plugins[i].1.wrapper.Some?
    ensures UnloadAll(reg).thrown.None?
    ensures UnloadAll(reg).state.plugins == []
  {
    var ps := OrderedMap.Values(reg.plugins);
    UnloadEachDeletes(reg, ps);
    forall e | e in reg.plugins
      ensures e.0 in SnapshotIds(ps)
    {
      var i :| 0 <= i < |reg.plugins| && reg.plugins[i] == e;
      assert e.0 == TempPluginId(ps[i].className);
    }
    NoEntriesIsEmpty(UnloadAll(reg).state.plugins);
  }

  /** The handles whose original `unload` a trace calls, in call order. */
  function UnloadedHandles(es: seq<Effect>): seq<nat>
  {
    if es == [] then []
    else (if es[0].PluginUnloadCalled? then [es[0].handle] else []) + UnloadedHandles(es[1..])
  }

  lemma {:induction false} UnloadedHandlesAppend(a: seq<Effect>, b: seq<Effect>)
    ensures UnloadedHandles(a + b) == UnloadedHandles(a) + UnloadedHandles(b)
  {
    if a == [] {
      assert a + b == b;
    } else {
      var head := if a[0].PluginUnloadCalled? then [a[0].handle] else [];
      assert (a + b)[0] == a[0] && (a + b)[1..] == a[1..] + b;
      UnloadedHandlesAppend(a[1..], b);
      assert UnloadedHandles(a + b) == head + (UnloadedHandles(a[1..]) + UnloadedHandles(b));
      assert UnloadedHandles(a) == head + UnloadedHandles(a[1..]);
    }
  }

  /** One `unload` calls exactly the original `unload` of its own instance. */
  lemma UnloadCallsOnce(reg: Registry, p: TempPlugin)
    ensures UnloadedHandles(Unload(reg, p).effects) == [p.handle]
  {
    var called := [PluginUnloadCalled(p.handle)];
    if p.wrapper.Some? {
      var failure := UnloadFailure(p.className, p.unload);
      var teardown := Teardown(p.className, p.wrapper.value.styled);
      assert Unload(reg, p).effects == (called + failure) + teardown;
      ConcatAssociative(called, failure, teardown);
      LeadingCall(p.handle, failure + teardown);
    } else {
      LeadingCall(p.handle, []);
    }
  }

  lemma LeadingCall(handle: nat, rest: seq<Effect>)
    requires forall e :: e in rest ==> !e.PluginUnloadCalled?
    ensures UnloadedHandles([PluginUnloadCalled(handle)] + rest) == [handle]
  {
    assert ([PluginUnloadCalled(handle)] + rest)[1..] == rest;
    NoUnloadCalls(rest);
  }

  lemma {:induction false} NoUnloadCalls(es: seq<Effect>)
    requires forall e :: e in es ==> !e.PluginUnloadCalled?
    ensures UnloadedHandles(es) == []
  {
    if es != [] {
      assert es[0] in es;
      assert forall e :: e in es[1..] ==> e in es;
      NoUnloadCalls(es[1..]);
    }
  }

  /** The handles of a snapshot's instances, in order. */
  function Handles(ps: seq<TempPlugin>): (hs: seq<nat>)
    ensures |hs| == |ps| && forall i :: 0 <= i < |ps| ==> hs[i] == ps[i].handle
  {
    seq(|ps|, i requires 0 <= i < |ps| => ps[i].handle)
  }

  /** The registry ids of a snapshot's loaded instances. */
  function WrappedIds(ps: seq<TempPlugin>): set<string>
  {
    set i | 0 <= i < |ps| && ps[i].wrapper.Some? :: TempPluginId(ps[i].className)
  }

  /**
   When no instance of a snapshot lets an error escape, unloading it calls
   every original `unload` once, in snapshot order.
   */
  lemma {:induction false} UnloadEachHandles(reg: Registry, ps: seq<TempPlugin>)
    requires forall i :: 0 <= i < |ps| ==> !Escapes(ps[i])
    ensures UnloadedHandles(UnloadEach(reg, ps).effects) == Handles(ps)
    decreases |ps|
  {
    if ps != [] {
      var first := Unload(reg, ps[0]);
      var tail := ps[1..];
      var rest := UnloadEach(first.state, tail);
      assert forall i :: 0 <= i < |tail| ==> tail[i] == ps[i + 1];
      UnloadEachHandles(first.state, tail);
      assert UnloadEach(reg, ps).effects == first.effects + rest.effects;
      UnloadedHandlesAppend(first.effects, rest.effects);
      UnloadCallsOnce(reg, ps[0]);
      assert Handles(ps) == [ps[0].handle] + Handles(tail);
    }
  }

  /**
   When no instance of a snapshot lets an error escape, unloading it removes
   exactly the entries of the loaded instances.
   */
  lemma {:induction false} UnloadEachKeepsBare(reg: Registry, ps: seq<TempPlugin>)
    requires forall i :: 0 <= i < |ps| ==> !Escapes(ps[i])
    ensures UnloadEach(reg, ps).thrown.None?
    ensures UnloadEach(reg, ps).state.next == reg.next
    ensures forall e :: e in UnloadEach(reg, ps).state.plugins <==> e in reg.plugins && e.0 !in WrappedIds(ps)
    decreases |ps|
  {
    if ps != [] {
      var first := Unload(reg, ps[0]);
      var tail := ps[1..];
      assert forall i :: 0 <= i < |tail| ==> tail[i] == ps[i + 1];
      UnloadEachKeepsBare(first.state, tail);
      assert UnloadEach(reg, ps).state == UnloadEach(first.state, tail).state;
      WrappedIdsCons(ps);
    }
  }

  lemma WrappedIdsCons(ps: seq<TempPlugin>)
    requires ps != []
    ensures WrappedIds(ps) == (if ps[0].wrapper.Some? then {TempPluginId(ps[0].className)} else {}) + WrappedIds(ps[1..])
  {
    var tail := ps[1..];
    forall k | k in WrappedIds(ps)
      ensures k in (if ps[0].wrapper.Some? then {TempPluginId(ps[0].className)} else {}) + WrappedIds(tail)
    {
      var i :| 0 <= i < |ps| && ps[i].wrapper.Some? && k == TempPluginId(ps[i].className);
      if i > 0 {
        assert tail[i - 1] == ps[i];
      }
    }
    forall k | k in WrappedIds(tail)
      ensures k in WrappedIds(ps)
    {
      var i :| 0 <= i < |tail| && tail[i].wrapper.Some? && k == TempPluginId(tail[i].className);
      assert ps[i + 1] == tail[i];
    }
  }

  /**
   When no registered instance lets an error escape, `unloadTempPlugins` calls
   every original `unload` once, in registry order, and leaves exactly the
   entries of the instances that never loaded.
   */
  lemma UnloadAllInOrder(reg: Registry)
    requires Wf(reg)
    requires forall i :: 0 <= i < |reg.plugins| ==> !Escapes(reg.plugins[i].1)
    ensures UnloadAll(reg).thrown.None?
    ensures UnloadedHandles(UnloadAll(reg).effects) == Handles(OrderedMap.Values(reg.plugins))
    ensures forall e :: e in UnloadAll(reg).state.plugins <==> e in reg.plugins && e.1.wrapper.None?
  {
    var ps := OrderedMap.Values(reg.plugins);
    UnloadEachHandles(reg, ps);
    UnloadEachKeepsBare(reg, ps);
    forall e | e in reg.plugins
      ensures e.0 in WrappedIds(ps) <==> e.1.wrapper.Some?
    {
      var i :| 0 <= i < |reg.plugins| && reg.plugins[i] == e;
      if e.1.wrapper.Some? {
        assert e.0 == TempPluginId(ps[i].className);
      }
      if e.0 in WrappedIds(ps) {
        var j :| 0 <= j < |ps| && ps[j].wrapper.Some? && e.0 == TempPluginId(ps[j].className);
        assert reg.plugins[j].0 == e.0;
        SameKeySameEntry(reg.plugins, i, j);
      }
    }
  }

  /** In a valid map, two entries with one key are one entry. */
  lemma SameKeySameEntry<K, V>(m: OrderedMap.Map<K, V>, i: nat, j: nat)
    requires OrderedMap.Valid(m) && i < |m| && j < |m| && m[i].0 == m[j].0
    ensures m[i] == m[j]
  {
    assert m[i] in m && m[j] in m;
    OrderedMap.GetOfEntry(m, m[i].0, m[i].1);
    OrderedMap.GetOfEntry(m, m[j].0, m[j].1);
  }

  // ---------------------------------------------------------------- the invariant

  lemma DeleteKeepsWf(reg: Registry, k: string)
    requires Wf(reg)
    ensures Wf(Registry(OrderedMap.Delete(reg.plugins, k), reg.next))
  {
    OrderedMap.DeleteValid(reg.plugins, k);
    var d := OrderedMap.Delete(reg.plugins, k);
    forall i | 0 <= i < |d|
      ensures d[i].0 == TempPluginId(d[i].1.className) && d[i].1.className != "" && d[i].1.handle < reg.next
    {
      assert d[i] in reg.plugins;
    }
  }

  lemma SetKeepsWf(reg: Registry, p: TempPlugin, next: nat)
    requires Wf(reg) && reg.next <= next && p.handle < next && p.className != ""
    ensures Wf(Registry(OrderedMap.Set(reg.plugins, TempPluginId(p.className), p), next))
  {
    var id := TempPluginId(p.className);
    OrderedMap.SetValid(reg.plugins, id, p);
    OrderedMap.SetEntries(reg.plugins, id, p);
    var s := OrderedMap.Set(reg.plugins, id, p);
    forall i | 0 <= i < |s|
      ensures s[i].0 == TempPluginId(s[i].1.className) && s[i].1.className != "" && s[i].1.handle < next
    {
      assert s[i] in s;
      if s[i] != (id, p) {
        var j :| 0 <= j < |reg.plugins| && reg.plugins[j] == s[i];
      }
    }
  }

  lemma UnloadKeepsWf(reg: Registry, p: TempPlugin)
    requires Wf(reg)
    ensures Wf(Unload(reg, p).state)
  {
    if p.wrapper.Some? {
      DeleteKeepsWf(reg, TempPluginId(p.className));
    }
  }

  lemma RegisterKeepsWf(reg: Registry, cls: PluginClass, cssText: string)
    requires Wf(reg)
    ensures Wf(Register(reg, cls, cssText).state)
  {
    var name := ClassNameOf(cls.name);
    var id := TempPluginId(name);
    var before := Evict(reg, id);
    if OrderedMap.Get(reg.plugins, id).Some? {
      UnloadKeepsWf(reg, OrderedMap.Get(reg.plugins, id).value);
    }
    if before.thrown.None? && cls.construct.Returns? {
      var s := before.state;
      SetKeepsWf(s, TempPlugin(s.next, name, cls.unload, if cls.load.Returns? then Some(Wrapper(cssText != "")) else None), s.next + 1);
    }
  }

  lemma UnregisterKeepsWf(reg: Registry, className: string)
    requires Wf(reg)
    ensures Wf(Unregister(reg, className).state)
  {
    var found := OrderedMap.Get(reg.plugins, TempPluginId(className));
    if found.Some? {
      UnloadKeepsWf(reg, found.value);
    }
  }

  lemma {:induction false} UnloadEachKeepsWf(reg: Registry, ps: seq<TempPlugin>)
    requires Wf(reg)
    ensures Wf(UnloadEach(reg, ps).state)
    decreases |ps|
  {
    if ps != [] {
      UnloadKeepsWf(reg, ps[0]);
      UnloadEachKeepsWf(Unload(reg, ps[0]).state, ps[1..]);
    }
  }

  // ---------------------------------------------------------------- register, then unregister

  /**
   Unregistering a loaded plugin by its class name undoes its registration:
   its entry is gone and every other entry is as the registration left it.
   */
  lemma RegisterThenUnregister(reg: Registry, cls: PluginClass, cssText: string)
    requires cls.name != "" && cls.load.Returns?
    requires Wf(reg)
    requires Register(reg, cls, cssText).thrown.None?
    ensures var registered := Register(reg, cls, cssText).state;
      var r := Unregister(registered, cls.name);
      && r.thrown.None?
      && OrderedMap.Get(r.state.plugins, TempPluginId(cls.name)).None?
      && forall k :: k != TempPluginId(cls.name) ==> OrderedMap.Get(r.state.plugins, k) == OrderedMap.Get(reg.plugins, k)
  {
    RegisterStores(reg, cls, cssText);
  }

  /**
   An instance whose load failed stays registered: unregistering it only runs
   its original `unload`, which leaves the entry in place.
   */
  lemma FailedLoadStaysRegistered(reg: Registry, cls: PluginClass, cssText: string)
    requires cls.name != "" && cls.load.Throws?
    requires Wf(reg)
    requires Register(reg, cls, cssText).thrown.None?
    ensures var registered := Register(reg, cls, cssText).state;
      var r := Unregister(registered, cls.name);
      && r.state == registered
      && OrderedMap.Get(r.state.plugins, TempPluginId(cls.name)).Some?
      && r.effects == [PluginUnloadCalled(reg.next)]
  {
    RegisterStores(reg, cls, cssText);
  }

  /**
   A second unregistering of a plugin after its wrapped `unload` has run
   finds nothing: it only reports that the plugin was not registered.
   */
  lemma UnregisterTwice(reg: Registry, className: string)
    requires OrderedMap.Get(reg.plugins, TempPluginId(className)).Some?
    requires OrderedMap.Get(reg.plugins, TempPluginId(className)).value.wrapper.Some?
    requires OrderedMap.Get(reg.plugins, TempPluginId(className)).value.className == className
    ensures var once := Unregister(reg, className);
      Unregister(once.state, className) == Step(once.state, [Notice("Temp Plugin was not registered: " + className + ".")], None)
  {
  }

  /**
   The wrapped `unload` itself is not a no-op when it runs again: it calls the
   original `unload` and emits the "Unregistered" notice once more.
   */
  lemma WrappedUnloadRepeats(reg: Registry, p: TempPlugin)
    requires p.wrapper.Some?
    ensures var again := Unload(Unload(reg, p).state, p);
      && again.effects[0] == PluginUnloadCalled(p.handle)
      && Notice("Unregistered Temp Plugin: " + p.className + ".") in again.effects
      && again.state == Unload(reg, p).state
  {
    var once := Unload(reg, p);
    var id := TempPluginId(p.className);
    assert OrderedMap.Delete(OrderedMap.Delete(reg.plugins, id), id) == OrderedMap.Delete(reg.plugins, id) by {
      DeleteAbsent(OrderedMap.Delete(reg.plugins, id), id);
    }
    WrappedUnloadTearsDown(once.state, p);
  }

  /** Deleting an absent key changes nothing. */
  lemma {:induction false} DeleteAbsent<K(!new), V(!new)>(m: OrderedMap.Map<K, V>, k: K)
    requires OrderedMap.Get(m, k).None?
    ensures OrderedMap.Delete(m, k) == m
  {
    if m != [] {
      DeleteAbsent(m[1..], k);
      assert m == [m[0]] + m[1..];
    }
  }

  /**
   An anonymous plugin cannot be unregistered by the empty name the class
   carries: no registry id is that of the empty class name.
   */
  lemma EmptyNameNeverRegistered(reg: Registry)
    requires Wf(reg)
    ensures Unregister(reg, "") == Step(reg, [Notice("Temp Plugin was not registered: .")], None)
  {
    assert "Temp Plugin was not registered: " + "" + "." == "Temp Plugin was not registered: .";
    forall i | 0 <= i < |reg.plugins|
      ensures reg.plugins[i].0 != TempPluginId("")
    {
      TempPluginIdInjective("", reg.plugins[i].1.className);
    }
  }
}
