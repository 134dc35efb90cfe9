/**
 * The plugin lifecycle of `server/plugin.py`: the `PluginMeta` events
 * table, the `Plugin.listener` decorator, injecting and ejecting a plugin's
 * listeners into the hub, the plugin table with its duplicate and override
 * rules, and loading and unloading extensions against a model of
 * `sys.modules` and of what the import system finds.
 */
module Plugins {
  import opened Wrappers
  import opened PyStr
  import opened PyValues
  import opened StrDict
  import opened Hub

  /** `_is_submodule`: a module is under itself and under every dotted prefix of its name. */
  predicate IsSubmodule(parent: string, child: string)
  {
    parent == child || StartsWith(child, parent + ".")
  }

  /** Being under a module is transitive. */
  lemma SubmoduleTransitive(a: string, b: string, c: string)
    requires IsSubmodule(a, b) && IsSubmodule(b, c)
    ensures IsSubmodule(a, c)
  {
    if a != b && b != c {
      assert c[..|b| + 1] == b + ".";
      assert c[..|a| + 1] == (b + ".")[..|a| + 1] == b[..|a| + 1];
    }
  }

  /** A name that extends the parent without a dot, such as `"a.bc"` for `"a.b"`, is not under it. */
  lemma SiblingNotSubmodule(p: string, s: string)
    requires s != [] && s[0] != '.'
    ensures !IsSubmodule(p, p + s)
  {
    var c := p + s;
    assert c[..|p| + 1] == p + [s[0]];
    assert (p + [s[0]])[|p|] != (p + ".")[|p|];
  }

  /** A direct child `p.x` is under `p`. */
  lemma ChildIsSubmodule(p: string, x: string)
    ensures IsSubmodule(p, p + "." + x)
  {
    assert (p + "." + x)[..|p| + 1] == p + ".";
  }

  // ----- PluginMeta and Plugin.listener -----

  /** A function object as the metaclass inspects it. */
  datatype FuncObj = FuncObj(
    name: string,
    isCoroutine: bool,
    /** `__plugin_listener__`, set by `Plugin.listener`. */
    pluginListener: bool,
    /** `__event_name__`, a space-separated list of event names. */
    eventName: Option<string>,
    /** The other attributes set on the function. */
    tags: set<string>)

  /** One entry of a class `__dict__`: the attribute name and its value. */
  datatype ClassAttr = ClassAttr(key: string, func: FuncObj)

  /** The metaclass keeps coroutines and functions flagged by `Plugin.listener`. */
  predicate IsListenerAttr(f: FuncObj)
  {
    f.isCoroutine || f.pluginListener
  }

  /** The event names stored for an attribute: its `__event_name__`, else its own name, split on single spaces. */
  function EventNames(a: ClassAttr): (r: seq<string>)
    ensures |r| >= 1
  {
    Split(if a.func.eventName.Some? then a.func.eventName.value else a.key, ' ')
  }

  /** The events table after walking one class body, the entries in definition order; a key defined again is overwritten in place. */
  function ClassEvents(acc: seq<(string, seq<string>)>, attrs: seq<ClassAttr>): seq<(string, seq<string>)>
    decreases |attrs|
  {
    if attrs == [] then acc
    else
      var prev := ClassEvents(acc, attrs[..|attrs| - 1]);
      var a := attrs[|attrs| - 1];
      if IsListenerAttr(a.func) then Put(prev, a.key, EventNames(a)) else prev
  }

  /** `__plugin_events__` for a class whose `__mro__` (most derived first) has these bodies: bases are walked first. */
  function MroEvents(mro: seq<seq<ClassAttr>>): seq<(string, seq<string>)>
  {
    if mro == [] then [] else ClassEvents(MroEvents(mro[1..]), mro[0])
  }

  /** The last listener definition of `m` in one class body. */
  function LastListener(attrs: seq<ClassAttr>, m: string): (r: Option<ClassAttr>)
    ensures r.Some? ==> r.value in attrs && r.value.key == m && IsListenerAttr(r.value.func)
  {
    if attrs == [] then None
    else
      var a := attrs[|attrs| - 1];
      if a.key == m && IsListenerAttr(a.func) then Some(a) else LastListener(attrs[..|attrs| - 1], m)
  }

  /** The definition of `m` that wins: the one in the most derived class of the MRO that has a listener `m`. */
  function ResolveListener(mro: seq<seq<ClassAttr>>, m: string): (r: Option<ClassAttr>)
    ensures r.Some? ==> r.value.key == m && IsListenerAttr(r.value.func)
  {
    if mro == [] then None
    else if LastListener(mro[0], m).Some? then LastListener(mro[0], m)
    else ResolveListener(mro[1..], m)
  }

  lemma {:induction false} ClassEventsGet(acc: seq<(string, seq<string>)>, attrs: seq<ClassAttr>, m: string)
    ensures StrDict.Get(ClassEvents(acc, attrs), m)
      == (if LastListener(attrs, m).Some? then Some(EventNames(LastListener(attrs, m).value)) else StrDict.Get(acc, m))
    decreases |attrs|
  {
    if attrs != [] {
      var init := attrs[..|attrs| - 1];
      ClassEventsGet(acc, init, m);
      var prev := ClassEvents(acc, init);
      var a := attrs[|attrs| - 1];
      if IsListenerAttr(a.func) {
        PutFacts(prev, a.key, EventNames(a));
      }
    }
  }

  lemma {:induction false} ClassEventsUnique(acc: seq<(string, seq<string>)>, attrs: seq<ClassAttr>)
    requires UniqueNames(acc)
    ensures UniqueNames(ClassEvents(acc, attrs))
    decreases |attrs|
  {
    if attrs != [] {
      var init := attrs[..|attrs| - 1];
      ClassEventsUnique(acc, init);
      var a := attrs[|attrs| - 1];
      PutFacts(ClassEvents(acc, init), a.key, EventNames(a));
    }
  }

  /**
   * The events table maps each name to the event names of its winning
   * definition: later definitions override earlier ones and derived
   * classes override their bases. Names without a listener definition are
   * absent, and no name occurs twice.
   */
  lemma {:induction false} MroEventsGet(mro: seq<seq<ClassAttr>>, m: string)
    ensures StrDict.Get(MroEvents(mro), m)
      == (if ResolveListener(mro, m).Some? then Some(EventNames(ResolveListener(mro, m).value)) else None)
    ensures UniqueNames(MroEvents(mro))
  {
    if mro != [] {
      MroEventsGet(mro[1..], m);
      ClassEventsGet(MroEvents(mro[1..]), mro[0], m);
      ClassEventsUnique(MroEvents(mro[1..]), mro[0]);
    }
  }

  /** A listener without `__event_name__` and without spaces in its name is dispatched under its own name only. */
  lemma DefaultEventName(mro: seq<seq<ClassAttr>>, m: string)
    requires ResolveListener(mro, m).Some? && ResolveListener(mro, m).value.func.eventName.None?
    requires ' ' !in m
    ensures StrDict.Get(MroEvents(mro), m) == Some([m])
  {
    MroEventsGet(mro, m);
    SplitWord(m, ' ');
  }

  /** `PluginMeta.__new__`'s loop: every class of the MRO from `object` upwards, every attribute in definition order. */
  method CollectEvents(mro: seq<seq<ClassAttr>>) returns (events: seq<(string, seq<string>)>)
    ensures events == MroEvents(mro)
  {
    events := [];
    var i := |mro|;
    while i > 0
      invariant 0 <= i <= |mro|
      invariant events == MroEvents(mro[i..])
    {
      var body := mro[i - 1];
      var acc := events;
      var j := 0;
      while j < |body|
        invariant 0 <= j <= |body|
        invariant events == ClassEvents(acc, body[..j])
      {
        assert body[..j + 1][..j] == body[..j];
        var a := body[j];
        if IsListenerAttr(a.func) {
          events := Put(events, a.key, EventNames(a));
        }
        j := j + 1;
      }
      assert body[..j] == body;
      assert mro[i - 1..][1..] == mro[i..];
      i := i - 1;
    }
  }

  /**
   * `Plugin.listener(name)` applied to a function: a non-coroutine is a
   * `TypeError`; otherwise the function gets `__plugin_listener__` and, with a
   * name, an attribute of that name. `__event_name__` is never set, so the
   * name does not change the events the metaclass records.
   */
  function Decorate(f: FuncObj, name: Option<string>): (r: Result<FuncObj, PyError>)
    ensures r.Err? <==> !f.isCoroutine
    ensures r.Err? ==> r.error == TypeError
    ensures r.Ok? ==>
      IsListenerAttr(r.value) && r.value.pluginListener
      && r.value.name == f.name && r.value.isCoroutine && r.value.eventName == f.eventName
    ensures r.Ok? ==> f.tags <= r.value.tags && (name.Some? ==> name.value in r.value.tags)
  {
    if !f.isCoroutine then Err(TypeError)
    else Ok(f.(pluginListener := true, tags := f.tags + (if name.Some? then {name.value} else {})))
  }

  // ----- Plugin instances, _inject and _eject -----

  /**
   * A plugin instance: `__plugin_name__`, the defining module `__module__`,
   * the class's `__plugin_events__`, and the bound methods `getattr`
   * returns by attribute name.
   */
  datatype PluginObj = PluginObj(name: string, moduleName: string, events: seq<(string, seq<string>)>, attrs: map<string, Listener>)

  /** What a plugin's hooks and its listener changes look like from the host, in order. */
  datatype Step =
    | Added(f: Listener, under: string)
    | OnLoad(plugin: string)
    | OnUnloadBefore(plugin: string)
    | Removed(f: Listener)
    | OnUnload(plugin: string)

  /** The `(key, event name)` pairs of an events table, in iteration order. */
  function Pairs(events: seq<(string, seq<string>)>): (r: seq<(string, string)>)
  {
    if events == [] then []
    else
      var e := events[|events| - 1];
      Pairs(events[..|events| - 1]) + seq(|e.1|, i requires 0 <= i < |e.1| => (e.0, e.1[i]))
  }

  /**
   * The registrations `_inject` makes, in order, and the exception that
   * ends them: `getattr(self, n)` fails for a missing attribute and
   * `add_listener` for a non-coroutine.
   */
  function InjectRun(attrs: map<string, Listener>, pairs: seq<(string, string)>): (r: (seq<(Listener, string)>, Option<PyError>))
    ensures r.1.Some? ==> r.1.value == AttributeError || r.1.value == TypeError
    ensures |r.0| <= |pairs|
  {
    if pairs == [] then ([], None)
    else
      var prev := InjectRun(attrs, pairs[..|pairs| - 1]);
      var p := pairs[|pairs| - 1];
      if prev.1.Some? then prev
      else if p.1 !in attrs then (prev.0, Some(AttributeError))
      else if !attrs[p.1].isCoroutine then (prev.0, Some(TypeError))
      else (prev.0 + [(attrs[p.1], p.0)], None)
  }

  /** The listeners `_eject` removes, in order, and the `AttributeError` of a missing attribute that ends them. */
  function EjectRun(attrs: map<string, Listener>, pairs: seq<(string, string)>): (r: (seq<Listener>, Option<PyError>))
    ensures r.1.Some? ==> r.1.value == AttributeError
    ensures |r.0| <= |pairs|
  {
    if pairs == [] then ([], None)
    else
      var prev := EjectRun(attrs, pairs[..|pairs| - 1]);
      var p := pairs[|pairs| - 1];
      if prev.1.Some? then prev
      else if p.1 !in attrs then (prev.0, Some(AttributeError))
      else (prev.0 + [attrs[p.1]], None)
  }

  /** Once a run has failed, later pairs are not attempted. */
  lemma {:induction false} InjectRunStops(attrs: map<string, Listener>, xs: seq<(string, string)>, ys: seq<(string, string)>)
    requires InjectRun(attrs, xs).1.Some?
    ensures InjectRun(attrs, xs + ys) == InjectRun(attrs, xs)
    decreases |ys|
  {
    if ys != [] {
      var init := ys[..|ys| - 1];
      assert (xs + ys)[..|xs + ys| - 1] == xs + init;
      InjectRunStops(attrs, xs, init);
    } else {
      assert xs + ys == xs;
    }
  }

  lemma {:induction false} EjectRunStops(attrs: map<string, Listener>, xs: seq<(string, string)>, ys: seq<(string, string)>)
    requires EjectRun(attrs, xs).1.Some?
    ensures EjectRun(attrs, xs + ys) == EjectRun(attrs, xs)
    decreases |ys|
  {
    if ys != [] {
      var init := ys[..|ys| - 1];
      assert (xs + ys)[..|xs + ys| - 1] == xs + init;
      EjectRunStops(attrs, xs, init);
    } else {
      assert xs + ys == xs;
    }
  }

  /** With every looked-up attribute present (and a coroutine for `_inject`), every pair is handled and nothing fails. */
  lemma {:induction false} RunsComplete(attrs: map<string, Listener>, pairs: seq<(string, string)>)
    requires forall i :: 0 <= i < |pairs| ==> pairs[i].1 in attrs
    ensures EjectRun(attrs, pairs).1 == None && |EjectRun(attrs, pairs).0| == |pairs|
    ensures forall i :: 0 <= i < |pairs| ==> EjectRun(attrs, pairs).0[i] == attrs[pairs[i].1]
    ensures (forall i :: 0 <= i < |pairs| ==> attrs[pairs[i].1].isCoroutine) ==>
      InjectRun(attrs, pairs).1 == None && |InjectRun(attrs, pairs).0| == |pairs|
      && forall i :: 0 <= i < |pairs| ==> InjectRun(attrs, pairs).0[i] == (attrs[pairs[i].1], pairs[i].0)
    decreases |pairs|
  {
    if pairs != [] {
      var init := pairs[..|pairs| - 1];
      assert forall i :: 0 <= i < |init| ==> init[i] == pairs[i];
      RunsComplete(attrs, init);
    }
  }

  /** The hub's listener table after `add_listener(f, name)` for each registration in turn. */
  function RegisterAll(extra: map<string, seq<Listener>>, regs: seq<(Listener, string)>): map<string, seq<Listener>>
  {
    if regs == [] then extra
    else
      var prev := RegisterAll(extra, regs[..|regs| - 1]);
      var g := regs[|regs| - 1];
      prev[g.1 := Registered(prev, g.1) + [g.0]]
  }

  lemma RegisterAllStep(extra: map<string, seq<Listener>>, done: seq<(Listener, string)>, f: Listener, key: string)
    ensures RegisterAll(extra, done + [(f, key)])
      == RegisterAll(extra, done)[key := Registered(RegisterAll(extra, done), key) + [f]]
  {
    assert (done + [(f, key)])[..|done|] == done;
  }

  /** `remove_listener(f)` without a name: under the function's own `__name__`. */
  function Unregister(extra: map<string, seq<Listener>>, f: Listener): map<string, seq<Listener>>
  {
    if f.name in extra then extra[f.name := RemoveFirst(extra[f.name], f)] else extra
  }

  function UnregisterAll(extra: map<string, seq<Listener>>, fs: seq<Listener>): map<string, seq<Listener>>
  {
    if fs == [] then extra else Unregister(UnregisterAll(extra, fs[..|fs| - 1]), fs[|fs| - 1])
  }

  lemma UnregisterAllStep(extra: map<string, seq<Listener>>, done: seq<Listener>, f: Listener)
    ensures UnregisterAll(extra, done + [f]) == Unregister(UnregisterAll(extra, done), f)
  {
    assert (done + [f])[..|done|] == done;
  }

  /** Removing a listener just registered under its own name, and not registered there before, restores the table. */
  lemma UnregisterUndoesRegister(extra: map<string, seq<Listener>>, f: Listener)
    requires f !in Registered(extra, f.name)
    ensures Unregister(RegisterAll(extra, [(f, f.name)]), f) == (if f.name in extra then extra else extra[f.name := []])
  {
    var before := Registered(extra, f.name);
    var after := RegisterAll(extra, [(f, f.name)]);
    RegisterAllStep(extra, [], f, f.name);
    assert [] + [(f, f.name)] == [(f, f.name)];
    assert after == extra[f.name := before + [f]];
    assert IndexOf(before + [f], f) == |before|;
    assert (before + [f])[..|before|] == before;
    assert RemoveFirst(before + [f], f) == before;
    assert Unregister(after, f) == extra[f.name := before];
    if f.name in extra {
      assert before == extra[f.name];
    } else {
      assert before == [];
    }
  }

  /**
   * A listener registered under a key other than its function's
   * `__name__` (an attribute bound to a function defined under another
   * name) is looked up under the wrong name by `_eject` and stays
   * registered.
   */
  lemma RenamedListenerStays(extra: map<string, seq<Listener>>, f: Listener, key: string)
    requires key != f.name
    ensures f in Unregister(RegisterAll(extra, [(f, key)]), f)[key]
  {
    var regs := [(f, key)];
    assert regs[..0] == [];
    var after := RegisterAll(extra, regs);
    assert after == RegisterAll(extra, regs[..0])[key := Registered(RegisterAll(extra, regs[..0]), key) + [f]];
    assert after == extra[key := Registered(extra, key) + [f]];
    assert after[key][|after[key]| - 1] == f;
    assert Unregister(after, f)[key] == after[key];
  }

  function RegisterSteps(regs: seq<(Listener, string)>): (r: seq<Step>)
    ensures |r| == |regs| && forall i :: 0 <= i < |regs| ==> r[i] == Added(regs[i].0, regs[i].1)
  {
    if regs == [] then [] else RegisterSteps(regs[..|regs| - 1]) + [Added(regs[|regs| - 1].0, regs[|regs| - 1].1)]
  }

  function UnregisterSteps(fs: seq<Listener>): (r: seq<Step>)
    ensures |r| == |fs| && forall i :: 0 <= i < |fs| ==> r[i] == Removed(fs[i])
  {
    if fs == [] then [] else UnregisterSteps(fs[..|fs| - 1]) + [Removed(fs[|fs| - 1])]
  }

  /** One more pair handled by `_inject`: a present coroutine is registered. */
  lemma InjectRunNext(attrs: map<string, Listener>, pairs: seq<(string, string)>, k: nat, done: seq<(Listener, string)>,
                      f: Listener)
    requires k < |pairs| && InjectRun(attrs, pairs[..k]) == (done, None)
    requires pairs[k].1 in attrs && f == attrs[pairs[k].1] && f.isCoroutine
    ensures InjectRun(attrs, pairs[..k + 1]) == (done + [(f, pairs[k].0)], None)
    ensures RegisterSteps(done + [(f, pairs[k].0)]) == RegisterSteps(done) + [Added(f, pairs[k].0)]
  {
    assert pairs[..k + 1][..k] == pairs[..k];
    var d := done + [(f, pairs[k].0)];
    assert d[..|done|] == done;
  }

  /** A missing attribute or a function that is not a coroutine ends `_inject` with the listeners registered so far. */
  lemma InjectRunEnds(attrs: map<string, Listener>, pairs: seq<(string, string)>, k: nat, done: seq<(Listener, string)>)
    requires k < |pairs| && InjectRun(attrs, pairs[..k]) == (done, None)
    requires pairs[k].1 !in attrs || !attrs[pairs[k].1].isCoroutine
    ensures InjectRun(attrs, pairs) == (done, Some(if pairs[k].1 !in attrs then AttributeError else TypeError))
  {
    assert pairs[..k + 1][..k] == pairs[..k];
    assert pairs == pairs[..k + 1] + pairs[k + 1..];
    InjectRunStops(attrs, pairs[..k + 1], pairs[k + 1..]);
  }

  /** One more pair handled by `_eject`: a present attribute is removed. */
  lemma EjectRunNext(attrs: map<string, Listener>, pairs: seq<(string, string)>, k: nat, done: seq<Listener>, f: Listener)
    requires k < |pairs| && EjectRun(attrs, pairs[..k]) == (done, None)
    requires pairs[k].1 in attrs && f == attrs[pairs[k].1]
    ensures EjectRun(attrs, pairs[..k + 1]) == (done + [f], None)
    ensures UnregisterSteps(done + [f]) == UnregisterSteps(done) + [Removed(f)]
  {
    assert pairs[..k + 1][..k] == pairs[..k];
    var d := done + [f];
    assert d[..|done|] == done;
  }

  /** A missing attribute ends `_eject` with the listeners removed so far. */
  lemma EjectRunEnds(attrs: map<string, Listener>, pairs: seq<(string, string)>, k: nat, done: seq<Listener>)
    requires k < |pairs| && EjectRun(attrs, pairs[..k]) == (done, None) && pairs[k].1 !in attrs
    ensures EjectRun(attrs, pairs) == (done, Some(AttributeError))
  {
    assert pairs[..k + 1][..k] == pairs[..k];
    assert pairs == pairs[..k + 1] + pairs[k + 1..];
    EjectRunStops(attrs, pairs[..k + 1], pairs[k + 1..]);
  }

  /** A hook, the steps between, and a closing hook, appended to a trace. */
  lemma StepsRegroup(t0: seq<Step>, first: Step, mid: seq<Step>, last: Step)
    ensures t0 + [first] + mid + [last] == t0 + ([first] + mid + [last])
  {
  }

  /** What `_inject` does, in order: the registrations, then `on_load` whether or not they failed. */
  function InjectSteps(p: PluginObj): (r: seq<Step>)
    ensures |r| >= 1 && r[|r| - 1] == OnLoad(p.name)
    ensures forall i :: 0 <= i < |r| - 1 ==> r[i].Added?
  {
    RegisterSteps(InjectRun(p.attrs, Pairs(p.events)).0) + [OnLoad(p.name)]
  }

  /** What `_eject` does, in order: `on_unload_before`, the removals, then `on_unload` whether or not they failed. */
  function EjectSteps(p: PluginObj): (r: seq<Step>)
    ensures |r| >= 2 && r[0] == OnUnloadBefore(p.name) && r[|r| - 1] == OnUnload(p.name)
    ensures forall i :: 0 < i < |r| - 1 ==> r[i].Removed?
  {
    [OnUnloadBefore(p.name)] + UnregisterSteps(EjectRun(p.attrs, Pairs(p.events)).0) + [OnUnload(p.name)]
  }

  /** `_inject`'s result: the exception of the first failed registration, raised after `on_load`. */
  function InjectResult(p: PluginObj): Result<(), PyError>
  {
    var e := InjectRun(p.attrs, Pairs(p.events)).1;
    if e.Some? then Err(e.value) else Ok(())
  }

  function EjectResult(p: PluginObj): Result<(), PyError>
  {
    var e := EjectRun(p.attrs, Pairs(p.events)).1;
    if e.Some? then Err(e.value) else Ok(())
  }

  /** The eject traces of several plugins, one after the other. */
  function EjectTrace(ps: seq<PluginObj>): seq<Step>
  {
    if ps == [] then [] else EjectTrace(ps[..|ps| - 1]) + EjectSteps(ps[|ps| - 1])
  }

  // ----- the command table -----

  /**
   * The command table after one step: `add_listener` under an
   * `on_command_` key registers that key's command with no display, and
   * `remove_listener` of a function whose `__name__` is an `on_command_`
   * name drops its command; the hooks leave the table alone.
   */
  function StepCommands(cmds: seq<(string, Option<string>)>, s: Step): seq<(string, Option<string>)>
  {
    match s
    case Added(_, key) => if StartsWith(key, "on_command_") then Put(cmds, ListenerCommand(key), None) else cmds
    case Removed(f) => if StartsWith(f.name, "on_command_") then Without(cmds, {ListenerCommand(f.name)}) else cmds
    case _ => cmds
  }

  /** The command table after the steps, in order. */
  function CommandsAfter(cmds: seq<(string, Option<string>)>, steps: seq<Step>): seq<(string, Option<string>)>
  {
    if steps == [] then cmds else StepCommands(CommandsAfter(cmds, steps[..|steps| - 1]), steps[|steps| - 1])
  }

  /** Whether a step touches the command table at all. */
  predicate TouchesCommands(s: Step)
  {
    (s.Added? && StartsWith(s.under, "on_command_")) || (s.Removed? && StartsWith(s.f.name, "on_command_"))
  }

  lemma CommandsSnoc(cmds: seq<(string, Option<string>)>, steps: seq<Step>, x: Step)
    ensures CommandsAfter(cmds, steps + [x]) == StepCommands(CommandsAfter(cmds, steps), x)
  {
    assert (steps + [x])[..|steps|] == steps;
  }

  /** Running two stretches of steps is running the second on the table the first left. */
  lemma {:induction false} CommandsAfterAppend(cmds: seq<(string, Option<string>)>, s1: seq<Step>, s2: seq<Step>)
    ensures CommandsAfter(cmds, s1 + s2) == CommandsAfter(CommandsAfter(cmds, s1), s2)
    decreases |s2|
  {
    if s2 == [] {
      assert s1 + s2 == s1;
    } else {
      var init := s2[..|s2| - 1];
      assert s1 + s2 == (s1 + init) + [s2[|s2| - 1]];
      assert s2 == init + [s2[|s2| - 1]];
      CommandsSnoc(cmds, s1 + init, s2[|s2| - 1]);
      CommandsSnoc(CommandsAfter(cmds, s1), init, s2[|s2| - 1]);
      CommandsAfterAppend(cmds, s1, init);
    }
  }

  lemma CommandsRegisterStep(cmds: seq<(string, Option<string>)>, done: seq<(Listener, string)>, f: Listener, key: string)
    ensures CommandsAfter(cmds, RegisterSteps(done + [(f, key)]))
      == StepCommands(CommandsAfter(cmds, RegisterSteps(done)), Added(f, key))
  {
    assert (done + [(f, key)])[..|done|] == done;
    CommandsSnoc(cmds, RegisterSteps(done), Added(f, key));
  }

  lemma CommandsUnregisterStep(cmds: seq<(string, Option<string>)>, done: seq<Listener>, f: Listener)
    ensures CommandsAfter(cmds, UnregisterSteps(done + [f]))
      == StepCommands(CommandsAfter(cmds, UnregisterSteps(done)), Removed(f))
  {
    assert (done + [f])[..|done|] == done;
    CommandsSnoc(cmds, UnregisterSteps(done), Removed(f));
  }

  /** `on_load` does not touch the command table: `_inject` changes it by its registrations alone. */
  lemma InjectStepsCommands(cmds: seq<(string, Option<string>)>, p: PluginObj)
    ensures CommandsAfter(cmds, InjectSteps(p)) == CommandsAfter(cmds, RegisterSteps(InjectRun(p.attrs, Pairs(p.events)).0))
  {
    CommandsSnoc(cmds, RegisterSteps(InjectRun(p.attrs, Pairs(p.events)).0), OnLoad(p.name));
  }

  /** Neither unload hook touches the command table: `_eject` changes it by its removals alone. */
  lemma EjectStepsCommands(cmds: seq<(string, Option<string>)>, p: PluginObj)
    ensures CommandsAfter(cmds, EjectSteps(p)) == CommandsAfter(cmds, UnregisterSteps(EjectRun(p.attrs, Pairs(p.events)).0))
  {
    var mid := UnregisterSteps(EjectRun(p.attrs, Pairs(p.events)).0);
    assert [OnUnloadBefore(p.name)][..0] == [];
    assert CommandsAfter(cmds, [OnUnloadBefore(p.name)]) == cmds;
    CommandsAfterAppend(cmds, [OnUnloadBefore(p.name)], mid);
    CommandsSnoc(cmds, [OnUnloadBefore(p.name)] + mid, OnUnload(p.name));
  }

  /** Registrations never drop a command, and keep the names of the table unique. */
  lemma {:induction false} InjectedCommandsKept(cmds: seq<(string, Option<string>)>, regs: seq<(Listener, string)>)
    ensures forall x :: HasName(cmds, x) ==> HasName(CommandsAfter(cmds, RegisterSteps(regs)), x)
    ensures UniqueNames(cmds) ==> UniqueNames(CommandsAfter(cmds, RegisterSteps(regs)))
    decreases |regs|
  {
    if regs != [] {
      var init := regs[..|regs| - 1];
      var g := regs[|regs| - 1];
      assert regs == init + [g];
      InjectedCommandsKept(cmds, init);
      CommandsRegisterStep(cmds, init, g.0, g.1);
      if StartsWith(g.1, "on_command_") {
        PutFacts(CommandsAfter(cmds, RegisterSteps(init)), ListenerCommand(g.1), None);
      }
    }
  }

  /** After the registrations, every `on_command_` key registered names a command of the table. */
  lemma {:induction false} InjectedCommandsCallable(cmds: seq<(string, Option<string>)>, regs: seq<(Listener, string)>)
    ensures forall i :: 0 <= i < |regs| && StartsWith(regs[i].1, "on_command_") ==>
      HasName(CommandsAfter(cmds, RegisterSteps(regs)), ListenerCommand(regs[i].1))
    decreases |regs|
  {
    if regs != [] {
      var init := regs[..|regs| - 1];
      var g := regs[|regs| - 1];
      var before := CommandsAfter(cmds, RegisterSteps(init));
      var after := CommandsAfter(cmds, RegisterSteps(regs));
      assert regs == init + [g];
      InjectedCommandsCallable(cmds, init);
      CommandsRegisterStep(cmds, init, g.0, g.1);
      assert after == StepCommands(before, Added(g.0, g.1));
      InjectedCommandsKept(before, [g]);
      assert [g][..0] == [];
      assert after == CommandsAfter(before, RegisterSteps([g]));
      if StartsWith(g.1, "on_command_") {
        PutFacts(before, ListenerCommand(g.1), None);
      }
      forall i | 0 <= i < |regs| && StartsWith(regs[i].1, "on_command_")
        ensures HasName(after, ListenerCommand(regs[i].1))
      {
        if i < |init| {
          assert init[i] == regs[i];
          assert HasName(before, ListenerCommand(init[i].1));
        }
      }
    }
  }

  /**
   * Removals never add a command, and after them no `on_command_` listener
   * removed has its command left in the table; names stay unique.
   */
  lemma {:induction false} EjectedCommandsGone(cmds: seq<(string, Option<string>)>, fs: seq<Listener>)
    ensures forall x :: HasName(CommandsAfter(cmds, UnregisterSteps(fs)), x) ==> HasName(cmds, x)
    ensures forall i :: 0 <= i < |fs| && StartsWith(fs[i].name, "on_command_") ==>
      !HasName(CommandsAfter(cmds, UnregisterSteps(fs)), ListenerCommand(fs[i].name))
    ensures UniqueNames(cmds) ==> UniqueNames(CommandsAfter(cmds, UnregisterSteps(fs)))
    decreases |fs|
  {
    if fs != [] {
      var init := fs[..|fs| - 1];
      var f := fs[|fs| - 1];
      assert fs == init + [f];
      EjectedCommandsGone(cmds, init);
      var before := CommandsAfter(cmds, UnregisterSteps(init));
      CommandsUnregisterStep(cmds, init, f);
      if StartsWith(f.name, "on_command_") {
        forall x ensures HasName(Without(before, {ListenerCommand(f.name)}), x) <==> HasName(before, x) && x != ListenerCommand(f.name) {
          WithoutNames(before, {ListenerCommand(f.name)}, x);
        }
        if UniqueNames(before) {
          WithoutUnique(before, {ListenerCommand(f.name)});
        }
      }
      forall i | 0 <= i < |init| ensures init[i] == fs[i] {
      }
    }
  }

  /** Steps that register or remove no `on_command_` listener leave the command table as it was. */
  lemma {:induction false} PlainStepsKeepCommands(cmds: seq<(string, Option<string>)>, steps: seq<Step>)
    requires forall i :: 0 <= i < |steps| ==> !TouchesCommands(steps[i])
    ensures CommandsAfter(cmds, steps) == cmds
    decreases |steps|
  {
    if steps != [] {
      var init := steps[..|steps| - 1];
      assert forall i :: 0 <= i < |init| ==> init[i] == steps[i];
      PlainStepsKeepCommands(cmds, init);
      assert !TouchesCommands(steps[|steps| - 1]);
    }
  }

  /** The plugins of a table whose module is under `parent`, in table order. */
  function UnderPlugins(s: seq<(string, PluginObj)>, parent: string): (r: seq<PluginObj>)
    ensures |r| <= |s|
  {
    if s == [] then []
    else UnderPlugins(s[..|s| - 1], parent) + (if IsSubmodule(parent, s[|s| - 1].1.moduleName) then [s[|s| - 1].1] else [])
  }

  /** The names of those plugins. */
  function UnderNames(s: seq<(string, PluginObj)>, parent: string): set<string>
  {
    if s == [] then {}
    else UnderNames(s[..|s| - 1], parent) + (if IsSubmodule(parent, s[|s| - 1].1.moduleName) then {s[|s| - 1].0} else {})
  }

  /** With unique names, a plugin's name is among those removed exactly when its module is under the extension. */
  lemma {:induction false} UnderNamesExact(s: seq<(string, PluginObj)>, parent: string, j: nat)
    requires UniqueNames(s) && j < |s|
    ensures s[j].0 in UnderNames(s, parent) <==> IsSubmodule(parent, s[j].1.moduleName)
    decreases |s|
  {
    var init := s[..|s| - 1];
    assert UniqueNames(init);
    if j < |s| - 1 {
      assert init[j] == s[j];
      UnderNamesExact(init, parent, j);
      assert s[j].0 != s[|s| - 1].0;
    } else {
      assert s[j].0 !in UnderNames(init, parent) by {
        forall i | 0 <= i < |init| ensures init[i].0 != s[j].0 {
          assert init[i] == s[i];
        }
        UnderNamesOnlyKeys(init, parent, s[j].0);
      }
    }
  }

  lemma {:induction false} UnderNamesOnlyKeys(s: seq<(string, PluginObj)>, parent: string, x: string)
    requires forall i :: 0 <= i < |s| ==> s[i].0 != x
    ensures x !in UnderNames(s, parent)
    decreases |s|
  {
    if s != [] {
      var init := s[..|s| - 1];
      forall i | 0 <= i < |init| ensures init[i].0 != x {
        assert init[i] == s[i];
      }
      UnderNamesOnlyKeys(init, parent, x);
    }
  }

  /**
   * After unloading an extension whose module is `parent`, exactly the
   * plugins whose module is not under it remain.
   */
  lemma UnloadKeepsExactly(s: seq<(string, PluginObj)>, parent: string, j: nat)
    requires UniqueNames(s) && j < |s|
    ensures HasName(Without(s, UnderNames(s, parent)), s[j].0) <==> !IsSubmodule(parent, s[j].1.moduleName)
  {
    WithoutNames(s, UnderNames(s, parent), s[j].0);
    UnderNamesExact(s, parent, j);
    assert HasName(s, s[j].0);
  }

  /** One more entry of the snapshot: its plugin joins the removed ones exactly when its module is under `parent`. */
  lemma UnderStep(s: seq<(string, PluginObj)>, i: nat, parent: string)
    requires UniqueNames(s) && i < |s|
    ensures s[i].0 !in UnderNames(s[..i], parent)
    ensures IsSubmodule(parent, s[i].1.moduleName) ==>
      UnderPlugins(s[..i + 1], parent) == UnderPlugins(s[..i], parent) + [s[i].1]
      && UnderNames(s[..i + 1], parent) == UnderNames(s[..i], parent) + {s[i].0}
    ensures !IsSubmodule(parent, s[i].1.moduleName) ==>
      UnderPlugins(s[..i + 1], parent) == UnderPlugins(s[..i], parent)
      && UnderNames(s[..i + 1], parent) == UnderNames(s[..i], parent)
  {
    assert s[..i + 1][..i] == s[..i];
    if !IsSubmodule(parent, s[i].1.moduleName) {
      assert UnderPlugins(s[..i], parent) + [] == UnderPlugins(s[..i], parent);
      assert UnderNames(s[..i], parent) + {} == UnderNames(s[..i], parent);
    }
    forall j | 0 <= j < |s[..i]| ensures s[..i][j].0 != s[i].0 {
      assert s[..i][j] == s[j];
    }
    UnderNamesOnlyKeys(s[..i], parent, s[i].0);
  }

  lemma UnloadTraceStep(s: seq<(string, PluginObj)>, i: nat, parent: string, start: seq<Step>)
    requires UniqueNames(s) && i < |s| && IsSubmodule(parent, s[i].1.moduleName)
    ensures start + EjectTrace(UnderPlugins(s[..i], parent)) + EjectSteps(s[i].1)
      == start + EjectTrace(UnderPlugins(s[..i + 1], parent))
  {
    UnderStep(s, i, parent);
    EjectTraceStep(UnderPlugins(s[..i], parent), s[i].1);
  }

  lemma UnloadCommandsStep(s: seq<(string, PluginObj)>, i: nat, parent: string, cmds: seq<(string, Option<string>)>)
    requires UniqueNames(s) && i < |s| && IsSubmodule(parent, s[i].1.moduleName)
    ensures CommandsAfter(cmds, EjectTrace(UnderPlugins(s[..i + 1], parent)))
      == CommandsAfter(CommandsAfter(cmds, EjectTrace(UnderPlugins(s[..i], parent))), EjectSteps(s[i].1))
  {
    UnderStep(s, i, parent);
    EjectTraceStep(UnderPlugins(s[..i], parent), s[i].1);
    CommandsAfterAppend(cmds, EjectTrace(UnderPlugins(s[..i], parent)), EjectSteps(s[i].1));
  }

  lemma EjectTraceStep(ps: seq<PluginObj>, p: PluginObj)
    ensures EjectTrace(ps + [p]) == EjectTrace(ps) + EjectSteps(p)
  {
    assert (ps + [p])[..|ps|] == ps;
  }

  // ----- modules and the import system -----

  /**
   * What calling a module's `setup(server)` does, when the module has one:
   * build these plugins in order and pass each to `add_plugin`, as every
   * `setup` of the repository does with its one plugin, or raise before
   * adding any.
   */
  datatype Setup = NoSetup | SetupAdds(added: seq<PluginObj>) | SetupRaises

  /** The part of the host a `setup` changes: the plugin table, the trace, the listener table and the command table. */
  datatype HostState = HostState(plugins: seq<(string, PluginObj)>, trace: seq<Step>, events: map<string, seq<Listener>>,
                                 commands: seq<(string, Option<string>)>)

  /**
   * `add_plugin(p)` without `override`, on a host state: a taken name is
   * `ExtensionAlreadyLoaded` and changes nothing; otherwise `_inject` runs
   * all its steps and registrations, which change the command table as
   * `CommandsAfter` says, and the plugin is stored last only when
   * `_inject` did not raise.
   */
  function AddPluginNew(st: HostState, p: PluginObj): (r: (Result<(), PyError>, HostState))
    ensures HasName(st.plugins, p.name) ==> r == (Err(ExtensionAlreadyLoaded), st)
    ensures !HasName(st.plugins, p.name) ==>
      r.0 == InjectResult(p) && r.1.trace == st.trace + InjectSteps(p)
      && r.1.events == RegisterAll(st.events, InjectRun(p.attrs, Pairs(p.events)).0)
      && r.1.commands == CommandsAfter(st.commands, InjectSteps(p))
      && r.1.plugins == if r.0.Ok? then st.plugins + [(p.name, p)] else st.plugins
  {
    if HasName(st.plugins, p.name) then (Err(ExtensionAlreadyLoaded), st)
    else
      var injected := HostState(st.plugins, st.trace + InjectSteps(p), RegisterAll(st.events, InjectRun(p.attrs, Pairs(p.events)).0),
                                CommandsAfter(st.commands, InjectSteps(p)));
      if InjectResult(p).Err? then (InjectResult(p), injected)
      else (Ok(()), injected.(plugins := st.plugins + [(p.name, p)]))
  }

  /**
   * The run of a `setup` that adds `added`: each plugin is built, which
   * reads `server.loop` in `Plugin.__init__` and so raises `AttributeError`
   * on a server without one, and then added; the first exception ends
   * the run, and what the earlier plugins did stays.
   */
  function SetupRun(st: HostState, added: seq<PluginObj>, hasLoop: bool): (Result<(), PyError>, HostState)
    decreases |added|
  {
    if added == [] then (Ok(()), st)
    else if !hasLoop then (Err(AttributeError), st)
    else
      var step := AddPluginNew(st, added[0]);
      if step.0.Err? then step else SetupRun(step.1, added[1..], hasLoop)
  }

  /** What `from_module_setup` does to the host, and its result before the module cache is touched. */
  function SetupEffect(st: HostState, setup: Setup, hasLoop: bool): (Result<(), PyError>, HostState)
  {
    match setup
    case NoSetup => (Err(NoEntryPointError), st)
    case SetupRaises => (Err(ExtensionError), st)
    case SetupAdds(added) =>
      var run := SetupRun(st, added, hasLoop);
      (if run.0.Ok? then Ok(()) else Err(ExtensionError), run.1)
  }

  /** A `setup` with nothing to add returns and changes nothing. */
  lemma EmptySetup(st: HostState, hasLoop: bool)
    ensures SetupEffect(st, SetupAdds([]), hasLoop) == (Ok(()), st)
  {
  }

  /**
   * On a server without `loop`, a `setup` that builds a plugin fails with
   * `ExtensionError` and leaves the host as it was.
   */
  lemma NoLoopSetupFails(st: HostState, added: seq<PluginObj>)
    requires added != []
    ensures SetupEffect(st, SetupAdds(added), false) == (Err(ExtensionError), st)
  {
  }

  /**
   * The one-plugin `setup` of the repository's plugins, on a server with
   * `loop`: a new name whose `_inject` succeeds ends with the plugin
   * stored last; a taken name is `ExtensionError` and changes nothing.
   */
  lemma {:induction false} OnePluginSetup(st: HostState, p: PluginObj)
    ensures !HasName(st.plugins, p.name) && InjectResult(p).Ok? ==>
      SetupEffect(st, SetupAdds([p]), true) ==
        (Ok(()), HostState(st.plugins + [(p.name, p)], st.trace + InjectSteps(p),
                           RegisterAll(st.events, InjectRun(p.attrs, Pairs(p.events)).0),
                           CommandsAfter(st.commands, InjectSteps(p))))
    ensures HasName(st.plugins, p.name) ==> SetupEffect(st, SetupAdds([p]), true) == (Err(ExtensionError), st)
  {
    var step := AddPluginNew(st, p);
    if step.0.Ok? {
      assert [p][1..] == [];
      assert SetupRun(step.1, [p][1..], true) == (Ok(()), step.1);
    }
  }

  /**
   * A failing plugin does not undo the earlier ones: when the first
   * plugin is added and the second's name is taken, the first stays
   * stored though setup fails.
   */
  lemma {:induction false} EarlierPluginsStay(st: HostState, p: PluginObj, q: PluginObj)
    requires !HasName(st.plugins, p.name) && InjectResult(p).Ok? && q.name == p.name
    ensures var eff := SetupEffect(st, SetupAdds([p, q]), true);
      eff.0 == Err(ExtensionError) && eff.1.plugins == st.plugins + [(p.name, p)]
  {
    var st1 := AddPluginNew(st, p).1;
    assert st1.plugins == st.plugins + [(p.name, p)];
    assert HasName(st1.plugins, q.name) by {
      assert st1.plugins[|st.plugins|].0 == q.name;
    }
    assert [p, q][1..] == [q];
    assert [q][1..] == [];
    assert SetupRun(st1, [q], true) == (Err(ExtensionAlreadyLoaded), st1);
  }

  /** A module object: its `__name__` and its entry point. */
  datatype Module = Module(name: string, setup: Setup)

  /**
   * What `find_spec(name)` finds: nothing, a module with a location (with
   * whether executing it raises), or a namespace directory whose listing
   * the glob walks.
   */
  datatype Spec =
    | NoSpec
    | Located(setup: Setup, execRaises: bool)
    | Directory(entries: seq<Entry>)

  /**
   * One directory entry: its stem and suffix, whether it is a file, what
   * `find_spec` finds for its dotted name, and what importing
   * `"<its dotted name>.main"` gives.
   */
  datatype Entry = Entry(stem: string, suffix: string, isFile: bool, spec: Spec, main: Import)

  datatype Import = ImportNotFound | ImportRaises | Imported(setup: Setup)

  /** What the directory walk does with an entry. */
  datatype EntryAction = Skip | LoadFile | SetupMain

  /** `glob("[!_]*")` drops `_`-prefixed names, `block_plugin` drops listed dotted names, `.py` files are loaded, the rest imported as packages. */
  function ActionOf(name: string, e: Entry, block: seq<string>): (a: EntryAction)
    ensures a == Skip <==> StartsWith(e.stem + e.suffix, "_") || name + "." + e.stem in block
    ensures a == LoadFile <==> a != Skip && e.isFile && e.suffix == ".py"
  {
    if StartsWith(e.stem + e.suffix, "_") || name + "." + e.stem in block then Skip
    else if e.isFile && e.suffix == ".py" then LoadFile
    else SetupMain
  }

  /** The number of leading dots of a relative module name. */
  function LeadingDots(s: string): (k: nat)
    ensures k <= |s| && forall i :: 0 <= i < k ==> s[i] == '.'
    ensures k < |s| ==> s[k] != '.'
  {
    if s == [] || s[0] != '.' then 0 else 1 + LeadingDots(s[1..])
  }

  /**
   * `importlib.util.resolve_name`: an absolute name is itself; a relative
   * one needs a package and climbs one package level per extra dot; an
   * `ImportError` becomes `ExtensionNotFound` in `_resolve_name`.
   */
  function ResolveName(name: string, package: Option<string>): (r: Result<string, PyError>)
    ensures !StartsWith(name, ".") ==> r == Ok(name)
    ensures StartsWith(name, ".") && (package.None? || package.value == "") ==> r == Err(ExtensionNotFound)
    ensures r.Err? ==> r.error == ExtensionNotFound
  {
    if !StartsWith(name, ".") then Ok(name)
    else if package.None? || package.value == "" then Err(ExtensionNotFound)
    else
      var level := LeadingDots(name);
      var bits := Split(package.value, '.');
      if |bits| < level then Err(ExtensionNotFound)
      else
        var base := Join(".", bits[..|bits| - (level - 1)]);
        var rest := name[level..];
        Ok(if rest == "" then base else base + "." + rest)
  }

  /** `str.removesuffix` */
  function RemoveSuffix(s: string, suffix: string): (r: string)
    ensures suffix != [] && |suffix| <= |s| && s[|s| - |suffix|..] == suffix ==> r + suffix == s
    ensures !(suffix != [] && |suffix| <= |s| && s[|s| - |suffix|..] == suffix) ==> r == s
  {
    if suffix != [] && |suffix| <= |s| && s[|s| - |suffix|..] == suffix then s[..|s| - |suffix|] else s
  }

  /** `sys.modules` after `_module_finalizer(lib, key)`: without `key` and without everything under the library's name less `.main`. */
  function Purged(modules: map<string, Module>, key: string, base: string): (r: map<string, Module>)
    ensures forall k :: k in r <==> k in modules && k != key && !IsSubmodule(base, k)
    ensures forall k :: k in r ==> r[k] == modules[k]
  {
    map k | k in modules && k != key && !IsSubmodule(base, k) :: modules[k]
  }

  /** `PluginMixin`: the plugin and extension tables of the server, with `sys.modules`. */
  class PluginHost {
    /** The server the mixin is part of. */
    const server: BaseServer
    /** `__plugins`, in insertion order. */
    var plugins: seq<(string, PluginObj)>
    /** `__extensions` */
    var extensions: map<string, Module>
    /** `sys.modules` */
    var modules: map<string, Module>
    /** The hooks run and listener changes made, in order. */
    var trace: seq<Step>

    ghost predicate Valid()
      reads this, server, server.commandManager
    {
      server.Valid() && UniqueNames(plugins) && forall k :: k in modules ==> modules[k].name == k
    }

    constructor (server: BaseServer, modules: map<string, Module>)
      requires server.Valid() && forall k :: k in modules ==> modules[k].name == k
      ensures Valid() && this.server == server && this.modules == modules
      ensures plugins == [] && extensions == map[] && trace == []
    {
      this.server := server;
      this.modules := modules;
      plugins := [];
      extensions := map[];
      trace := [];
    }

    /** The part of the host a `setup` changes. */
    function State(): HostState
      reads this, server, server.commandManager
    {
      HostState(plugins, trace, server.extraEvents, server.commandManager.commands)
    }

    /** `get_plugin` */
    function GetPlugin(name: string): (r: Option<PluginObj>)
      reads this
      requires UniqueNames(plugins)
      ensures r.Some? <==> HasName(plugins, name)
      ensures r.Some? ==> (name, r.value) in plugins
      ensures forall j :: 0 <= j < |plugins| && plugins[j].0 == name ==> r == Some(plugins[j].1)
    {
      StrDict.Get(plugins, name)
    }

    /** One `add_listener(f, key)` of `_inject`, recorded in the trace when it succeeds. */
    method AddOne(f: Listener, key: string) returns (ok: bool)
      requires Valid()
      modifies this, server, server.commandManager
      ensures Valid() && plugins == old(plugins) && extensions == old(extensions) && modules == old(modules)
      ensures server.clients == old(server.clients)
      ensures ok == f.isCoroutine
      ensures ok ==>
        trace == old(trace) + [Added(f, key)]
        && server.extraEvents == old(server.extraEvents)[key := Registered(old(server.extraEvents), key) + [f]]
        && server.commandManager.commands == StepCommands(old(server.commandManager.commands), Added(f, key))
      ensures !ok ==>
        trace == old(trace) && server.extraEvents == old(server.extraEvents)
        && server.commandManager.commands == old(server.commandManager.commands)
    {
      var added := server.AddListener(f, Some(key));
      ok := added.Ok?;
      if ok {
        trace := trace + [Added(f, key)];
      }
    }

    /** One `remove_listener(f)` of `_eject`, recorded in the trace. */
    method RemoveOne(f: Listener)
      requires Valid()
      modifies this, server, server.commandManager
      ensures Valid() && plugins == old(plugins) && extensions == old(extensions) && modules == old(modules)
      ensures server.clients == old(server.clients)
      ensures trace == old(trace) + [Removed(f)]
      ensures server.extraEvents == Unregister(old(server.extraEvents), f)
      ensures server.commandManager.commands == StepCommands(old(server.commandManager.commands), Removed(f))
    {
      server.RemoveListener(f, None);
      trace := trace + [Removed(f)];
    }

    /** `_inject`: registers each `(key, event name)` pair's bound method under the key, then runs `on_load`. */
    method Inject(p: PluginObj) returns (r: Result<(), PyError>)
      requires Valid()
      modifies this, server, server.commandManager
      ensures Valid() && plugins == old(plugins) && extensions == old(extensions) && modules == old(modules)
      ensures r == InjectResult(p)
      ensures trace == old(trace) + InjectSteps(p)
      ensures server.extraEvents == RegisterAll(old(server.extraEvents), InjectRun(p.attrs, Pairs(p.events)).0)
      ensures server.commandManager.commands == CommandsAfter(old(server.commandManager.commands), InjectSteps(p))
      ensures server.clients == old(server.clients)
    {
      r := InjectListeners(p);
      trace := trace + [OnLoad(p.name)];
      InjectStepsCommands(old(server.commandManager.commands), p);
    }

    /** The loop of `_inject` before `on_load`. */
    method InjectListeners(p: PluginObj) returns (r: Result<(), PyError>)
      requires Valid()
      modifies this, server, server.commandManager
      ensures Valid() && plugins == old(plugins) && extensions == old(extensions) && modules == old(modules)
      ensures r == InjectResult(p)
      ensures trace == old(trace) + RegisterSteps(InjectRun(p.attrs, Pairs(p.events)).0)
      ensures server.extraEvents == RegisterAll(old(server.extraEvents), InjectRun(p.attrs, Pairs(p.events)).0)
      ensures server.commandManager.commands == CommandsAfter(old(server.commandManager.commands), RegisterSteps(InjectRun(p.attrs, Pairs(p.events)).0))
      ensures server.clients == old(server.clients)
    {
      var pairs := Pairs(p.events);
      var done: seq<(Listener, string)> := [];
      var k := 0;
      r := Ok(());
      ghost var t0, e0, c0 := trace, server.extraEvents, server.commandManager.commands;
      assert trace == t0 + RegisterSteps(done);
      while k < |pairs|
        invariant 0 <= k <= |pairs|
        invariant Valid() && plugins == old(plugins) && extensions == old(extensions) && modules == old(modules)
        invariant server.clients == old(server.clients)
        invariant InjectRun(p.attrs, pairs[..k]) == (done, None)
        invariant trace == t0 + RegisterSteps(done)
        invariant server.extraEvents == RegisterAll(e0, done)
        invariant server.commandManager.commands == CommandsAfter(c0, RegisterSteps(done))
      {
        var step, added := InjectOne(p, pairs, k, done, t0, e0, c0);
        if step.Err? {
          r := step;
          break;
        }
        done := added;
        k := k + 1;
      }
      if r.Ok? {
        assert pairs[..k] == pairs;
      }
    }

    /** One turn of the loop of `_inject`: register the next bound method, or end with the error that stops the loop. */
    method InjectOne(p: PluginObj, pairs: seq<(string, string)>, k: nat, done: seq<(Listener, string)>,
                     ghost t0: seq<Step>, ghost e0: map<string, seq<Listener>>, ghost c0: seq<(string, Option<string>)>)
                     returns (r: Result<(), PyError>, added: seq<(Listener, string)>)
      requires Valid() && pairs == Pairs(p.events) && k < |pairs| && InjectRun(p.attrs, pairs[..k]) == (done, None)
      requires trace == t0 + RegisterSteps(done) && server.extraEvents == RegisterAll(e0, done)
      requires server.commandManager.commands == CommandsAfter(c0, RegisterSteps(done))
      modifies this, server, server.commandManager
      ensures Valid() && plugins == old(plugins) && extensions == old(extensions) && modules == old(modules)
      ensures server.clients == old(server.clients)
      ensures r.Ok? ==> InjectRun(p.attrs, pairs[..k + 1]) == (added, None)
      ensures r.Ok? ==> trace == t0 + RegisterSteps(added) && server.extraEvents == RegisterAll(e0, added)
      ensures r.Ok? ==> server.commandManager.commands == CommandsAfter(c0, RegisterSteps(added))
      ensures r.Err? ==> r == InjectResult(p) && InjectRun(p.attrs, pairs).0 == done
      ensures r.Err? ==> trace == t0 + RegisterSteps(done) && server.extraEvents == RegisterAll(e0, done)
      ensures r.Err? ==> server.commandManager.commands == CommandsAfter(c0, RegisterSteps(done))
    {
      var key := pairs[k].0;
      var n := pairs[k].1;
      added := done;
      if n !in p.attrs {
        InjectRunEnds(p.attrs, pairs, k, done);
        r := Err(AttributeError);
        return;
      }
      var f := p.attrs[n];
      var ok := AddOne(f, key);
      if !ok {
        InjectRunEnds(p.attrs, pairs, k, done);
        r := Err(TypeError);
        return;
      }
      InjectRunNext(p.attrs, pairs, k, done, f);
      RegisterAllStep(e0, done, f, key);
      CommandsRegisterStep(c0, done, f, key);
      added := done + [(f, key)];
      r := Ok(());
    }

    /** `_eject`: runs `on_unload_before`, removes each event name's bound method under its `__name__`, then runs `on_unload`. */
    method Eject(p: PluginObj) returns (r: Result<(), PyError>)
      requires Valid()
      modifies this, server, server.commandManager
      ensures Valid() && plugins == old(plugins) && extensions == old(extensions) && modules == old(modules)
      ensures r == EjectResult(p)
      ensures trace == old(trace) + EjectSteps(p)
      ensures server.extraEvents == UnregisterAll(old(server.extraEvents), EjectRun(p.attrs, Pairs(p.events)).0)
      ensures server.commandManager.commands == CommandsAfter(old(server.commandManager.commands), EjectSteps(p))
      ensures server.clients == old(server.clients)
    {
      ghost var t0 := trace;
      EjectStepsCommands(server.commandManager.commands, p);
      ghost var removed := UnregisterSteps(EjectRun(p.attrs, Pairs(p.events)).0);
      trace := trace + [OnUnloadBefore(p.name)];
      r := EjectListeners(p);
      trace := trace + [OnUnload(p.name)];
      StepsRegroup(t0, OnUnloadBefore(p.name), removed, OnUnload(p.name));
    }

    /** The loop of `_eject` between the two hooks. */
    method EjectListeners(p: PluginObj) returns (r: Result<(), PyError>)
      requires Valid()
      modifies this, server, server.commandManager
      ensures Valid() && plugins == old(plugins) && extensions == old(extensions) && modules == old(modules)
      ensures r == EjectResult(p)
      ensures trace == old(trace) + UnregisterSteps(EjectRun(p.attrs, Pairs(p.events)).0)
      ensures server.extraEvents == UnregisterAll(old(server.extraEvents), EjectRun(p.attrs, Pairs(p.events)).0)
      ensures server.commandManager.commands == CommandsAfter(old(server.commandManager.commands), UnregisterSteps(EjectRun(p.attrs, Pairs(p.events)).0))
      ensures server.clients == old(server.clients)
    {
      var pairs := Pairs(p.events);
      var done: seq<Listener> := [];
      var k := 0;
      r := Ok(());
      ghost var t0, e0, c0 := trace, server.extraEvents, server.commandManager.commands;
      assert trace == t0 + UnregisterSteps(done);
      while k < |pairs|
        invariant 0 <= k <= |pairs|
        invariant Valid() && plugins == old(plugins) && extensions == old(extensions) && modules == old(modules)
        invariant server.clients == old(server.clients)
        invariant EjectRun(p.attrs, pairs[..k]) == (done, None)
        invariant trace == t0 + UnregisterSteps(done)
        invariant server.extraEvents == UnregisterAll(e0, done)
        invariant server.commandManager.commands == CommandsAfter(c0, UnregisterSteps(done))
      {
        var step, removed := EjectOne(p, pairs, k, done, t0, e0, c0);
        if step.Err? {
          r := step;
          break;
        }
        done := removed;
        k := k + 1;
      }
      if r.Ok? {
        assert pairs[..k] == pairs;
      }
    }

    /** One turn of the loop of `_eject`: remove the next bound method, or end with the `AttributeError` of a missing one. */
    method EjectOne(p: PluginObj, pairs: seq<(string, string)>, k: nat, done: seq<Listener>,
                    ghost t0: seq<Step>, ghost e0: map<string, seq<Listener>>, ghost c0: seq<(string, Option<string>)>)
                    returns (r: Result<(), PyError>, removed: seq<Listener>)
      requires Valid() && pairs == Pairs(p.events) && k < |pairs| && EjectRun(p.attrs, pairs[..k]) == (done, None)
      requires trace == t0 + UnregisterSteps(done) && server.extraEvents == UnregisterAll(e0, done)
      requires server.commandManager.commands == CommandsAfter(c0, UnregisterSteps(done))
      modifies this, server, server.commandManager
      ensures Valid() && plugins == old(plugins) && extensions == old(extensions) && modules == old(modules)
      ensures server.clients == old(server.clients)
      ensures r.Ok? ==> EjectRun(p.attrs, pairs[..k + 1]) == (removed, None)
      ensures r.Ok? ==> trace == t0 + UnregisterSteps(removed) && server.extraEvents == UnregisterAll(e0, removed)
      ensures r.Ok? ==> server.commandManager.commands == CommandsAfter(c0, UnregisterSteps(removed))
      ensures r.Err? ==> r == EjectResult(p) && EjectRun(p.attrs, pairs).0 == done
      ensures r.Err? ==> trace == t0 + UnregisterSteps(done) && server.extraEvents == UnregisterAll(e0, done)
      ensures r.Err? ==> server.commandManager.commands == CommandsAfter(c0, UnregisterSteps(done))
    {
      var n := pairs[k].1;
      removed := done;
      if n !in p.attrs {
        EjectRunEnds(p.attrs, pairs, k, done);
        r := Err(AttributeError);
        return;
      }
      var f := p.attrs[n];
      EjectRunNext(p.attrs, pairs, k, done, f);
      RemoveOne(f);
      UnregisterAllStep(e0, done, f);
      CommandsUnregisterStep(c0, done, f);
      removed := done + [f];
      r := Ok(());
    }

    /** `remove_plugin`: an unknown name changes nothing; a known one is popped, then ejected, and returned. */
    method RemovePlugin(name: string) returns (r: Result<Option<PluginObj>, PyError>)
      requires Valid()
      modifies this, server, server.commandManager
      ensures Valid() && extensions == old(extensions) && modules == old(modules)
      ensures plugins == Pop(old(plugins), name)
      ensures server.clients == old(server.clients)
      ensures !HasName(old(plugins), name) ==>
        r == Ok(None) && trace == old(trace)
        && server.extraEvents == old(server.extraEvents)
        && server.commandManager.commands == old(server.commandManager.commands)
      ensures HasName(old(plugins), name) ==>
        var p := StrDict.Get(old(plugins), name).value;
        trace == old(trace) + EjectSteps(p)
        && server.extraEvents == UnregisterAll(old(server.extraEvents), EjectRun(p.attrs, Pairs(p.events)).0)
        && server.commandManager.commands == CommandsAfter(old(server.commandManager.commands), EjectSteps(p))
        && (r == Ok(Some(p)) <==> EjectResult(p).Ok?) && (r.Err? <==> EjectResult(p).Err?)
        && (r.Err? ==> r.error == AttributeError)
    {
      var found := GetPlugin(name);
      PopIsWithout(plugins, name);
      WithoutUnique(plugins, {name});
      plugins := Pop(plugins, name);
      if found.None? {
        return Ok(None);
      }
      var e := Eject(found.value);
      if e.Err? {
        return Err(e.error);
      }
      r := Ok(Some(found.value));
    }

    /**
     * `add_plugin`: a taken name without `override` is
     * `ExtensionAlreadyLoaded` and changes nothing; with `override` the old
     * plugin is removed first, and an error of its `_eject` ends the call.
     * Then `_inject` runs, and the plugin is stored last only once
     * `_inject` returned.
     */
    method AddPlugin(p: PluginObj, override: bool) returns (r: Result<(), PyError>)
      requires Valid()
      modifies this, server, server.commandManager
      ensures Valid() && extensions == old(extensions) && modules == old(modules)
      ensures server.clients == old(server.clients)
      ensures !override || !HasName(old(plugins), p.name) ==> (r, State()) == AddPluginNew(old(State()), p)
      ensures HasName(old(plugins), p.name) && override ==>
        var q := StrDict.Get(old(plugins), p.name).value;
        var ejected := UnregisterAll(old(server.extraEvents), EjectRun(q.attrs, Pairs(q.events)).0);
        var commandsEjected := CommandsAfter(old(server.commandManager.commands), EjectSteps(q));
        (EjectResult(q).Err? ==>
          r == EjectResult(q) && plugins == Pop(old(plugins), p.name)
          && trace == old(trace) + EjectSteps(q) && server.extraEvents == ejected
          && server.commandManager.commands == commandsEjected)
        && (EjectResult(q).Ok? ==>
          r == InjectResult(p)
          && plugins == (if r.Ok? then Pop(old(plugins), p.name) + [(p.name, p)] else Pop(old(plugins), p.name))
          && trace == old(trace) + EjectSteps(q) + InjectSteps(p)
          && server.extraEvents == RegisterAll(ejected, InjectRun(p.attrs, Pairs(p.events)).0)
          && server.commandManager.commands == CommandsAfter(commandsEjected, InjectSteps(p)))
      ensures r.Ok? ==> GetPlugin(p.name) == Some(p)
    {
      var name := p.name;
      var existing := GetPlugin(name);
      if existing.Some? {
        if !override {
          return Err(ExtensionAlreadyLoaded);
        }
        PopIsWithout(plugins, name);
        WithoutNames(plugins, {name}, name);
        var removed := RemovePlugin(name);
        if removed.Err? {
          return Err(removed.error);
        }
      } else {
        WithoutAbsent(plugins, {name});
        PopIsWithout(plugins, name);
      }
      var injected := Inject(p);
      if injected.Err? {
        return injected;
      }
      PutNewFacts(plugins, name, p);
      plugins := Put(plugins, name, p);
      r := Ok(());
    }

    /**
     * The plugins a `setup` builds, each passed to `add_plugin`: the run
     * ends as `SetupRun` says.
     */
    method RunSetup(added: seq<PluginObj>) returns (r: Result<(), PyError>)
      requires Valid()
      modifies this, server, server.commandManager
      ensures Valid() && extensions == old(extensions) && modules == old(modules)
      ensures server.clients == old(server.clients)
      ensures (r, State()) == SetupRun(old(State()), added, server.hasLoop)
    {
      var i := 0;
      while i < |added|
        invariant 0 <= i <= |added|
        invariant Valid() && extensions == old(extensions) && modules == old(modules)
        invariant server.clients == old(server.clients)
        invariant SetupRun(State(), added[i..], server.hasLoop) == SetupRun(old(State()), added, server.hasLoop)
      {
        assert added[i..][0] == added[i] && added[i..][1..] == added[i + 1..];
        if !server.hasLoop {
          return Err(AttributeError);
        }
        var added := AddPlugin(added[i], false);
        if added.Err? {
          return added;
        }
        i := i + 1;
      }
      return Ok(());
    }

    /** `_module_finalizer(lib, key)`: drops the key from both caches and every cached module under the library's name less `.main`. */
    method ModuleFinalizer(lib: Module, key: string)
      requires Valid()
      modifies this
      ensures Valid() && plugins == old(plugins) && trace == old(trace)
      ensures extensions == old(extensions) - {key}
      ensures modules == Purged(old(modules), key, RemoveSuffix(lib.name, ".main"))
    {
      extensions := extensions - {key};
      modules := modules - {key};
      var base := RemoveSuffix(lib.name, ".main");
      PurgeUnder(base);
      assert modules == Purged(old(modules), key, base);
    }

    /** The loop of `_module_finalizer` over a copy of the keys of `sys.modules`, dropping each one under `base`. */
    method PurgeUnder(base: string)
      requires Valid()
      modifies this
      ensures Valid() && plugins == old(plugins) && trace == old(trace) && extensions == old(extensions)
      ensures forall k :: k in modules <==> k in old(modules) && !IsSubmodule(base, k)
      ensures forall k :: k in modules ==> modules[k] == old(modules)[k]
    {
      var snapshot := modules;
      var todo := snapshot.Keys;
      while todo != {}
        invariant todo <= snapshot.Keys
        invariant plugins == old(plugins) && trace == old(trace) && extensions == old(extensions)
        invariant forall k :: k in modules <==> k in snapshot && (k in todo || !IsSubmodule(base, k))
        invariant forall k :: k in modules ==> modules[k] == snapshot[k]
        decreases |todo|
      {
        var k :| k in todo;
        if IsSubmodule(base, k) {
          modules := modules - {k};
        }
        todo := todo - {k};
      }
    }

    /**
     * `unload_extension`: an untracked name is `ExtensionNotFound`; otherwise
     * every plugin of a snapshot of the table whose module is under the
     * extension's is removed, in table order, and the caches are purged.
     */
    method UnloadExtension(name: string, package: Option<string>) returns (r: Result<(), PyError>)
      requires Valid()
      modifies this, server, server.commandManager
      ensures Valid() && server.clients == old(server.clients)
      ensures ResolveName(name, package).Err? || ResolveName(name, package).value !in old(extensions) ==>
        r == Err(ExtensionNotFound) && plugins == old(plugins) && extensions == old(extensions)
        && modules == old(modules) && trace == old(trace)
      ensures r.Ok? ==> ResolveName(name, package).Ok? && ResolveName(name, package).value in old(extensions)
      ensures r.Ok? ==>
        var key := ResolveName(name, package).value;
        var lib := old(extensions)[key];
        plugins == Without(old(plugins), UnderNames(old(plugins), lib.name))
        && trace == old(trace) + EjectTrace(UnderPlugins(old(plugins), lib.name))
        && server.commandManager.commands == CommandsAfter(old(server.commandManager.commands), EjectTrace(UnderPlugins(old(plugins), lib.name)))
        && extensions == old(extensions) - {key}
        && modules == Purged(old(modules), key, RemoveSuffix(lib.name, ".main"))
    {
      var resolved := ResolveName(name, package);
      if resolved.Err? {
        return Err(ExtensionNotFound);
      }
      var key := resolved.value;
      if key !in extensions {
        return Err(ExtensionNotFound);
      }
      var lib := extensions[key];
      extensions := extensions - {key};
      r := RemoveUnder(lib.name);
      if r.Err? {
        return;
      }
      ModuleFinalizer(lib, key);
    }

    /** The loop of `unload_extension` over a snapshot of the plugin table, removing each plugin whose module is under `parent`. */
    method RemoveUnder(parent: string) returns (r: Result<(), PyError>)
      requires Valid()
      modifies this, server, server.commandManager
      ensures Valid() && server.clients == old(server.clients) && extensions == old(extensions) && modules == old(modules)
      ensures r.Ok? ==>
        plugins == Without(old(plugins), UnderNames(old(plugins), parent))
        && trace == old(trace) + EjectTrace(UnderPlugins(old(plugins), parent))
        && server.commandManager.commands == CommandsAfter(old(server.commandManager.commands), EjectTrace(UnderPlugins(old(plugins), parent)))
    {
      var snapshot := plugins;
      WithoutAbsent(snapshot, {});
      var i := 0;
      while i < |snapshot|
        invariant 0 <= i <= |snapshot|
        invariant Valid() && server.clients == old(server.clients) && UniqueNames(snapshot)
        invariant extensions == old(extensions) && modules == old(modules)
        invariant plugins == Without(snapshot, UnderNames(snapshot[..i], parent))
        invariant trace == old(trace) + EjectTrace(UnderPlugins(snapshot[..i], parent))
        invariant server.commandManager.commands == CommandsAfter(old(server.commandManager.commands), EjectTrace(UnderPlugins(snapshot[..i], parent)))
      {
        var step := UnloadAt(snapshot, i, parent, old(trace), old(server.commandManager.commands));
        if step.Err? {
          return step;
        }
        i := i + 1;
      }
      assert snapshot[..i] == snapshot;
      r := Ok(());
    }

    /**
     * Entry `i` of the snapshot: removed by name when its module is under
     * `parent`, skipped otherwise; a failed eject still leaves the plugin
     * popped and its steps run.
     */
    method UnloadAt(snapshot: seq<(string, PluginObj)>, i: nat, parent: string, ghost start: seq<Step>,
                    ghost commandsStart: seq<(string, Option<string>)>) returns (r: Result<(), PyError>)
      requires Valid() && UniqueNames(snapshot) && i < |snapshot|
      requires plugins == Without(snapshot, UnderNames(snapshot[..i], parent))
      requires trace == start + EjectTrace(UnderPlugins(snapshot[..i], parent))
      requires server.commandManager.commands == CommandsAfter(commandsStart, EjectTrace(UnderPlugins(snapshot[..i], parent)))
      modifies this, server, server.commandManager
      ensures Valid() && server.clients == old(server.clients) && extensions == old(extensions) && modules == old(modules)
      ensures plugins == Without(snapshot, UnderNames(snapshot[..i + 1], parent))
      ensures trace == start + EjectTrace(UnderPlugins(snapshot[..i + 1], parent))
      ensures server.commandManager.commands == CommandsAfter(commandsStart, EjectTrace(UnderPlugins(snapshot[..i + 1], parent)))
    {
      if IsSubmodule(parent, snapshot[i].1.moduleName) {
        UnloadTraceStep(snapshot, i, parent, start);
        UnloadCommandsStep(snapshot, i, parent, commandsStart);
        r := UnloadOne(snapshot, i, parent);
      } else {
        UnderStep(snapshot, i, parent);
        r := Ok(());
      }
    }

    /** One plugin of the snapshot, under the extension and not yet removed, is removed by name, whether or not its eject fails. */
    method UnloadOne(snapshot: seq<(string, PluginObj)>, i: nat, parent: string) returns (r: Result<(), PyError>)
      requires Valid() && UniqueNames(snapshot) && i < |snapshot| && IsSubmodule(parent, snapshot[i].1.moduleName)
      requires plugins == Without(snapshot, UnderNames(snapshot[..i], parent))
      modifies this, server, server.commandManager
      ensures Valid() && server.clients == old(server.clients) && extensions == old(extensions) && modules == old(modules)
      ensures plugins == Without(snapshot, UnderNames(snapshot[..i + 1], parent))
      ensures trace == old(trace) + EjectSteps(snapshot[i].1)
      ensures server.commandManager.commands == CommandsAfter(old(server.commandManager.commands), EjectSteps(snapshot[i].1))
    {
      var names := UnderNames(snapshot[..i], parent);
      UnderStep(snapshot, i, parent);
      WithoutGet(snapshot, names, i);
      WithoutUnique(snapshot, names);
      PopIsWithout(plugins, snapshot[i].0);
      WithoutTwice(snapshot, names, {snapshot[i].0});
      var removed := RemovePlugin(snapshot[i].0);
      if removed.Err? {
        return Err(removed.error);
      }
      r := Ok(());
    }

    /**
     * `from_module_setup`: a module without `setup`, or whose `setup` raises,
     * is dropped from `sys.modules` (a `KeyError` if it is not there) and the
     * extension is not recorded; otherwise it is recorded under the name.
     * Whatever the plugins its `setup` added did stays.
     */
    method FromModuleSetup(lib: Module, name: Option<string>) returns (r: Result<(), PyError>)
      requires Valid()
      modifies this, server, server.commandManager
      ensures Valid() && server.clients == old(server.clients)
      ensures var n := if name.Some? then name.value else lib.name;
        var effect := SetupEffect(old(State()), lib.setup, server.hasLoop);
        State() == effect.1
        && (effect.0.Ok? ==> r == Ok(()) && extensions == old(extensions)[n := lib] && modules == old(modules))
        && (effect.0.Err? ==>
          extensions == old(extensions)
          && (n !in old(modules) ==> r == Err(KeyError) && modules == old(modules))
          && (n in old(modules) ==> r == effect.0 && modules == old(modules) - {n}))
    {
      var n := if name.Some? then name.value else lib.name;
      var result: Result<(), PyError>;
      match lib.setup {
        case NoSetup =>
          result := Err(NoEntryPointError);
        case SetupRaises =>
          result := Err(ExtensionError);
        case SetupAdds(added) =>
          var run := RunSetup(added);
          result := if run.Ok? then Ok(()) else Err(ExtensionError);
      }
      if result.Err? {
        if n !in modules {
          return Err(KeyError);
        }
        modules := modules - {n};
        return result;
      }
      extensions := extensions[n := lib];
      r := Ok(());
    }

    /**
     * `load_plugin` against what `find_spec` finds for the name: a tracked
     * name is `ExtensionAlreadyLoaded`, an unfound one
     * `ExtensionPluginNotFound`; a located module is cached and executed
     * (a failure drops it without raising) and then set up; a namespace
     * directory is walked entry by entry.
     */
    method LoadPlugin(name: string, package: Option<string>, block: seq<string>, spec: Spec) returns (r: Result<(), PyError>)
      requires Valid()
      modifies this, server, server.commandManager
      decreases spec, 1
      ensures Valid() && server.clients == old(server.clients)
      ensures ResolveName(name, package).Err? ==>
        r == Err(ExtensionNotFound) && extensions == old(extensions) && modules == old(modules) && State() == old(State())
      ensures ResolveName(name, package).Ok? && (ResolveName(name, package).value in old(extensions) || spec.NoSpec?) ==>
        r == Err(if ResolveName(name, package).value in old(extensions) then ExtensionAlreadyLoaded else ExtensionPluginNotFound)
        && extensions == old(extensions) && modules == old(modules) && State() == old(State())
      ensures ResolveName(name, package).Ok? && ResolveName(name, package).value !in old(extensions) && spec.Located? ==>
        var n := ResolveName(name, package).value;
        var effect := SetupEffect(old(State()), spec.setup, server.hasLoop);
        (spec.execRaises ==>
          r == Ok(()) && extensions == old(extensions) && modules == old(modules) - {n} && State() == old(State()))
        && (!spec.execRaises ==> State() == effect.1)
        && (!spec.execRaises && effect.0.Ok? ==>
          r == Ok(()) && extensions == old(extensions)[n := Module(n, spec.setup)]
          && modules == old(modules)[n := Module(n, spec.setup)])
        && (!spec.execRaises && effect.0.Err? ==>
          r == effect.0 && extensions == old(extensions) && modules == old(modules) - {n})
      ensures package.None? ==> forall k :: k in extensions && k !in old(extensions) ==> IsSubmodule(name, k)
    {
      var resolved := ResolveName(name, package);
      if resolved.Err? {
        return Err(ExtensionNotFound);
      }
      var n := resolved.value;
      if n in extensions {
        return Err(ExtensionAlreadyLoaded);
      }
      match spec
      case NoSpec =>
        return Err(ExtensionPluginNotFound);
      case Located(setup, execRaises) =>
        var lib := Module(n, setup);
        modules := modules[n := lib];
        if execRaises {
          modules := modules - {n};
          return Ok(());
        }
        r := FromModuleSetup(lib, Some(n));
        assert old(modules)[n := lib] - {n} == old(modules) - {n};
      case Directory(entries) =>
        r := LoadDirectory(n, package, block, entries);
    }

    /**
     * The namespace-directory branch of `load_plugin` for the package `n`:
     * each entry that is not skipped is loaded as a plugin file or has its
     * `main` module set up, and the first failure ends the walk.
     */
    method LoadDirectory(n: string, package: Option<string>, block: seq<string>, entries: seq<Entry>)
      returns (r: Result<(), PyError>)
      requires Valid()
      modifies this, server, server.commandManager
      decreases Directory(entries), 0
      ensures Valid() && server.clients == old(server.clients)
      ensures package.None? ==> forall k :: k in extensions && k !in old(extensions) ==> IsSubmodule(n, k)
    {
      var i := 0;
      r := Ok(());
      while i < |entries|
        invariant 0 <= i <= |entries|
        invariant Valid() && server.clients == old(server.clients)
        invariant package.None? ==> forall k :: k in extensions && k !in old(extensions) ==> IsSubmodule(n, k)
      {
        var e := entries[i];
        var pa := n + "." + e.stem;
        ChildIsSubmodule(n, e.stem);
        var action := ActionOf(n, e, block);
        if action == LoadFile {
          ghost var mid := extensions;
          var loaded := LoadPlugin(pa, package, block, e.spec);
          if package.None? {
            forall k | k in extensions && k !in mid ensures IsSubmodule(n, k) {
              SubmoduleTransitive(n, pa, k);
            }
          }
          if loaded.Err? {
            return loaded;
          }
        } else if action == SetupMain {
          var key := pa + ".main";
          ChildIsSubmodule(n, e.stem + ".main");
          assert pa + ".main" == n + "." + (e.stem + ".main");
          var m: Module;
          if key in modules {
            m := modules[key];
          } else {
            match e.main
            case ImportNotFound =>
              return Err(OtherError("ModuleNotFoundError"));
            case ImportRaises =>
              return Err(OtherError("ImportError"));
            case Imported(setup) =>
              m := Module(key, setup);
              modules := modules[key := m];
          }
          var setUp := FromModuleSetup(m, None);
          if setUp.Err? {
            return setUp;
          }
        }
        i := i + 1;
      }
    }
  }

  /** Unloading the extension `<package>.main` purges the whole package from the module cache. */
  lemma MainSuffixStripped(lib: string)
    ensures RemoveSuffix(lib + ".main", ".main") == lib
  {
    assert (lib + ".main")[|lib + ".main"| - 5..] == ".main";
    assert (lib + ".main")[..|lib|] == lib;
  }
}
