/**
 * The synchronous event registry of the client library
 * (`chatbridgee/utils/events.py`): `EventHandler` objects declared on a
 * class, gathered by the `EventsMate` metaclass from the whole MRO, bound to
 * the newest instance and registered on construction; `add_listener`,
 * `listen`, and `dispatch`, which calls each listener of one event name in
 * order, re-dispatches failures as `dispatch_error`, and prepends the bound
 * instance of every handler it passes to the arguments of all later calls.
 */
module EventRegistry {
  import opened Wrappers
  import opened PyValues

  /** A plain Python function: its `__name__` and the `__event_name__` attribute `event("x")` sets on it. */
  datatype PyFunc = PyFunc(name: string, eventAttr: Option<string>)

  /**
   * An `EventHandler` object. `id` stands for its identity; its mutable
   * `cls` attribute lives in the shared `HandlerSlots` table, keyed by `id`.
   */
  datatype EventHandler = EventHandler(id: nat, func: PyFunc, name: string, eventName: string)

  /** What a registry stores and calls: an `EventHandler` or any other function. */
  datatype Callable = Handler(h: EventHandler) | Plain(f: PyFunc)

  /** `func.__name__`; a handler copies its function's. */
  function CallableName(c: Callable): string
  {
    match c
    case Handler(h) => h.name
    case Plain(f) => f.name
  }

  /** A positional argument of a dispatched call. */
  datatype Arg = Instance(obj: Events) | Val(v: Value) | Fn(c: Callable) | Exc(e: PyError)

  /** One call a dispatch makes. */
  datatype Call = Call(target: Callable, args: seq<Arg>)

  /** The calls a dispatch makes, and whether it ended in a `RecursionError`. */
  datatype Outcome = Outcome(calls: seq<Call>, overflow: bool)

  /** What a dispatch raises when the nested `dispatch_error` dispatches exceed the recursion limit. */
  const RecursionError := OtherError("RecursionError")

  // ----- the `event` decorator -----

  /** How `event` is applied: `@event("x")`, a bare `@event`, or `@event()` with the `MISSING` default. */
  datatype EventArg = Named(s: string) | Bare | NoArg

  /**
   * `EventHandler(func, event_name)`: the handler's name is the function's;
   * its event name is the given one, or the function's name.
   */
  function NewHandler(id: nat, func: PyFunc, eventName: Option<string>): (h: EventHandler)
    ensures h.id == id && h.func == func && h.name == func.name
    ensures eventName.Some? ==> h.eventName == eventName.value
    ensures eventName.None? ==> h.eventName == func.name
  {
    EventHandler(id, func, func.name, if eventName.None? then func.name else eventName.value)
  }

  /**
   * `event(arg)` applied to `f`. `event("x")` first sets `f.__event_name__`
   * to `"x"`; the handler's event name is then that attribute, or the
   * function's name. `event()` reads `MISSING.__name__`, which does not exist.
   */
  function Decorate(id: nat, arg: EventArg, f: PyFunc): (r: Result<EventHandler, PyError>)
    ensures arg.NoArg? <==> r == Err(AttributeError)
    ensures r.Ok? ==>
      r.value.id == id && r.value.name == f.name
      && r.value.func == (if arg.Named? then f.(eventAttr := Some(arg.s)) else f)
  {
    match arg
    case NoArg => Err(AttributeError)
    case Named(s) =>
      var g := f.(eventAttr := Some(s));
      Ok(NewHandler(id, g, Some(if g.eventAttr.Some? then g.eventAttr.value else g.name)))
    case Bare => Ok(NewHandler(id, f, Some(if f.eventAttr.Some? then f.eventAttr.value else f.name)))
  }

  /** `event("x")` names the handler `"x"`; a bare `@event` on a fresh function uses its name. */
  lemma DecorateEventName(id: nat, s: string, f: PyFunc)
    ensures Decorate(id, Named(s), f).Ok? && Decorate(id, Named(s), f).value.eventName == s
    ensures f.eventAttr.None? ==> Decorate(id, Bare, f).Ok? && Decorate(id, Bare, f).value.eventName == f.name
    ensures f.eventAttr.Some? ==> Decorate(id, Bare, f).Ok? && Decorate(id, Bare, f).value.eventName == f.eventAttr.value
  {
  }

  /** Decorating the function `event("x")` left behind once more, bare, keeps the event name `"x"`. */
  lemma RedecorateKeepsName(id: nat, id2: nat, s: string, f: PyFunc)
    ensures Decorate(id, Named(s), f).Ok?
    ensures Decorate(id2, Bare, Decorate(id, Named(s), f).value.func).Ok?
    ensures Decorate(id2, Bare, Decorate(id, Named(s), f).value.func).value.eventName == s
  {
  }

  // ----- the metaclass -----

  /** A class attribute: an `EventHandler` or anything else. */
  datatype Attr = HandlerAttr(h: EventHandler) | OtherAttr

  /** A class body: its `__dict__` in definition order. */
  datatype ClassDef = ClassDef(attrs: seq<(string, Attr)>)

  /** The `(event name, handler)` pairs of one class's own `__dict__`, in order. */
  function AttrEvents(attrs: seq<(string, Attr)>): (r: seq<(string, EventHandler)>)
    ensures |r| <= |attrs|
  {
    if attrs == [] then []
    else
      var a := attrs[|attrs| - 1].1;
      AttrEvents(attrs[..|attrs| - 1]) + (if a.HandlerAttr? then [(a.h.eventName, a.h)] else [])
  }

  /**
   * `EventsMate.__new__`'s `events`: for each class of the MRO (most derived
   * first), bases first, every handler of its own `__dict__`. A handler a
   * subclass overrides is still listed, from the base's `__dict__`.
   */
  function ClassEvents(mro: seq<ClassDef>): seq<(string, EventHandler)>
  {
    if mro == [] then [] else ClassEvents(mro[1..]) + AttrEvents(mro[0].attrs)
  }

  /** Every handler attribute of one class body is listed, under its event name. */
  lemma {:induction false} AttrEventsHas(attrs: seq<(string, Attr)>, k: nat)
    requires k < |attrs| && attrs[k].1.HandlerAttr?
    ensures (attrs[k].1.h.eventName, attrs[k].1.h) in AttrEvents(attrs)
    decreases |attrs|
  {
    var init := attrs[..|attrs| - 1];
    if k < |attrs| - 1 {
      assert init[k] == attrs[k];
      AttrEventsHas(init, k);
    }
  }

  /** Nothing but handler attributes is listed. */
  lemma {:induction false} AttrEventsOnly(attrs: seq<(string, Attr)>, e: (string, EventHandler))
    requires e in AttrEvents(attrs)
    ensures exists k :: 0 <= k < |attrs| && attrs[k].1 == HandlerAttr(e.1) && e.0 == e.1.eventName
    decreases |attrs|
  {
    var init := attrs[..|attrs| - 1];
    var a := attrs[|attrs| - 1].1;
    if e in AttrEvents(init) {
      AttrEventsOnly(init, e);
      var k :| 0 <= k < |init| && init[k].1 == HandlerAttr(e.1) && e.0 == e.1.eventName;
      assert attrs[k] == init[k];
    } else {
      assert a.HandlerAttr? && e == (a.h.eventName, a.h);
      assert attrs[|attrs| - 1].1 == HandlerAttr(e.1);
    }
  }

  /** Every handler of every class in the MRO is gathered, overridden ones included. */
  lemma {:induction false} ClassEventsHas(mro: seq<ClassDef>, j: nat, k: nat)
    requires j < |mro| && k < |mro[j].attrs| && mro[j].attrs[k].1.HandlerAttr?
    ensures (mro[j].attrs[k].1.h.eventName, mro[j].attrs[k].1.h) in ClassEvents(mro)
    decreases |mro|
  {
    if j == 0 {
      AttrEventsHas(mro[0].attrs, k);
    } else {
      assert mro[1..][j - 1] == mro[j];
      ClassEventsHas(mro[1..], j - 1, k);
    }
  }

  /** The base's handlers come before the subclass's own: the most derived class's are the last ones. */
  lemma ClassEventsOrder(mro: seq<ClassDef>)
    requires mro != []
    ensures ClassEvents(mro)[|ClassEvents(mro[1..])|..] == AttrEvents(mro[0].attrs)
  {
  }

  /** The metaclass loop: over `reversed(__mro__)`, then over each class's `__dict__`. */
  method CollectEvents(mro: seq<ClassDef>) returns (events: seq<(string, EventHandler)>)
    ensures events == ClassEvents(mro)
  {
    events := [];
    var i := |mro|;
    while i > 0
      invariant 0 <= i <= |mro|
      invariant events == ClassEvents(mro[i..])
    {
      i := i - 1;
      var found := CollectAttrs(mro[i].attrs);
      assert mro[i..][1..] == mro[i + 1..];
      events := events + found;
    }
  }

  /** The inner loop of the metaclass: the handler attributes of one class `__dict__`, in order. */
  method CollectAttrs(attrs: seq<(string, Attr)>) returns (found: seq<(string, EventHandler)>)
    ensures found == AttrEvents(attrs)
  {
    found := [];
    var j := 0;
    while j < |attrs|
      invariant 0 <= j <= |attrs|
      invariant found == AttrEvents(attrs[..j])
    {
      assert attrs[..j + 1][..j] == attrs[..j];
      var a := attrs[j].1;
      if a.HandlerAttr? {
        found := found + [(a.h.eventName, a.h)];
      }
      j := j + 1;
    }
    assert attrs[..j] == attrs;
  }

  // ----- the listener table and dispatch -----

  /** `extra_events.get(name, [])` */
  function Lookup(extra: map<string, seq<Callable>>, name: string): seq<Callable>
  {
    if name in extra then extra[name] else []
  }

  /** The table after `add_listener(func, name)`. */
  function Added(extra: map<string, seq<Callable>>, func: Callable, name: string): map<string, seq<Callable>>
  {
    extra[name := Lookup(extra, name) + [func]]
  }

  /** The table after registering each `(name, handler)` pair in turn. */
  function RegisterAll(extra: map<string, seq<Callable>>, events: seq<(string, EventHandler)>): map<string, seq<Callable>>
  {
    if events == [] then extra
    else
      var e := events[|events| - 1];
      Added(RegisterAll(extra, events[..|events| - 1]), Handler(e.1), e.0)
  }

  /** The shared `cls` attributes after `_set_cls(obj)` on each listed handler. */
  function BindAll(cls: map<nat, Events>, events: seq<(string, EventHandler)>, obj: Events): (r: map<nat, Events>)
    ensures forall i :: 0 <= i < |events| ==> events[i].1.id in r && r[events[i].1.id] == obj
    ensures forall k :: k in r <==> k in cls || exists i :: 0 <= i < |events| && events[i].1.id == k
    ensures forall k :: k in cls && (forall i :: 0 <= i < |events| ==> events[i].1.id != k) ==> r[k] == cls[k]
  {
    if events == [] then cls
    else
      var init := events[..|events| - 1];
      var prev := BindAll(cls, init, obj);
      assert forall i :: 0 <= i < |init| ==> events[i] == init[i];
      prev[events[|events| - 1].1.id := obj]
  }

  /**
   * The arguments in force after the loop of `dispatch` has passed the
   * listeners `ls`: each handler whose `cls` is set prepends that instance,
   * so the newest one comes first.
   */
  function ArgsAfter(ls: seq<Callable>, cls: map<nat, Events>, args: seq<Arg>): seq<Arg>
  {
    if ls == [] then args
    else
      var a := ArgsAfter(ls[..|ls| - 1], cls, args);
      var f := ls[|ls| - 1];
      if f.Handler? && f.h.id in cls then [Instance(cls[f.h.id])] + a else a
  }

  /** The prepended instances accumulate in front of the arguments the dispatch was given, and nothing else changes. */
  lemma {:induction false} ArgsAccumulate(ls: seq<Callable>, cls: map<nat, Events>, args: seq<Arg>)
    ensures ArgsAfter(ls, cls, args) == ArgsAfter(ls, cls, []) + args
    ensures forall a :: a in ArgsAfter(ls, cls, []) ==> a.Instance?
    decreases |ls|
  {
    if ls != [] {
      ArgsAccumulate(ls[..|ls| - 1], cls, args);
    }
  }

  /** Two bound handlers in a row: the second is called with both instances, its own first. */
  lemma TwoBoundHandlers(h1: EventHandler, h2: EventHandler, cls: map<nat, Events>, args: seq<Arg>)
    requires h1.id in cls && h2.id in cls
    ensures ArgsAfter([Handler(h1)], cls, args) == [Instance(cls[h1.id])] + args
    ensures ArgsAfter([Handler(h1), Handler(h2)], cls, args) == [Instance(cls[h2.id]), Instance(cls[h1.id])] + args
  {
    assert [Handler(h1), Handler(h2)][..1] == [Handler(h1)];
    assert [Handler(h1)][..0] == [];
  }

  /**
   * `dispatch(event_name, *args)`: the listeners of exactly that name, in
   * order. `raises` says what each call raises. A failing call is followed by
   * `dispatch("dispatch_error", func, e)`; `depth` is how many nested
   * dispatches the recursion limit still allows, and exhausting it raises
   * `RecursionError` out of every level.
   */
  function EventRun(extra: map<string, seq<Callable>>, cls: map<nat, Events>, event: string, args: seq<Arg>,
                    raises: Call -> Option<PyError>, depth: nat): (r: Outcome)
    ensures !r.overflow ==> |r.calls| >= |Lookup(extra, event)|
    ensures r.overflow ==> |r.calls| >= 1
    decreases depth, 1
  {
    ListRun(extra, cls, Lookup(extra, event), args, raises, depth)
  }

  /** The loop of `dispatch` over the listeners `ls`. */
  function ListRun(extra: map<string, seq<Callable>>, cls: map<nat, Events>, ls: seq<Callable>, args: seq<Arg>,
                   raises: Call -> Option<PyError>, depth: nat): (r: Outcome)
    ensures !r.overflow ==> |r.calls| >= |ls|
    ensures r.overflow ==> |r.calls| >= 1
    ensures ls != [] ==> r.calls[0] == Call(ls[0], ArgsAfter(ls[..1], cls, args))
    decreases depth, 0, |ls|
  {
    if ls == [] then Outcome([], false)
    else
      var prev := ListRun(extra, cls, ls[..|ls| - 1], args, raises, depth);
      if prev.overflow then prev
      else
        var f := ls[|ls| - 1];
        Turn(extra, cls, Call(f, ArgsAfter(ls, cls, args)), prev.calls, raises, depth)
  }

  /**
   * One listener's turn after the calls `prev`: the call `c`, then, when it
   * raises, the nested `dispatch_error` or, at the limit, the overflow.
   */
  function Turn(extra: map<string, seq<Callable>>, cls: map<nat, Events>, c: Call, prev: seq<Call>,
                raises: Call -> Option<PyError>, depth: nat): (r: Outcome)
    ensures |r.calls| >= |prev| + 1 && r.calls[..|prev| + 1] == prev + [c]
    ensures r.overflow ==> raises(c).Some?
    decreases depth, 0, 0
  {
    var e := raises(c);
    if e.None? then Outcome(prev + [c], false)
    else if depth == 0 then Outcome(prev + [c], true)
    else
      var sub := EventRun(extra, cls, "dispatch_error", [Fn(c.target), Exc(e.value)], raises, depth - 1);
      Outcome(prev + [c] + sub.calls, sub.overflow)
  }

  /** One more listener of the loop. */
  lemma ListRunStep(extra: map<string, seq<Callable>>, cls: map<nat, Events>, ls: seq<Callable>, i: nat,
                    args: seq<Arg>, raises: Call -> Option<PyError>, depth: nat)
    requires i < |ls| && !ListRun(extra, cls, ls[..i], args, raises, depth).overflow
    ensures ArgsAfter(ls[..i + 1], cls, args)
      == if ls[i].Handler? && ls[i].h.id in cls then [Instance(cls[ls[i].h.id])] + ArgsAfter(ls[..i], cls, args)
         else ArgsAfter(ls[..i], cls, args)
    ensures ListRun(extra, cls, ls[..i + 1], args, raises, depth)
      == Turn(extra, cls, Call(ls[i], ArgsAfter(ls[..i + 1], cls, args)), ListRun(extra, cls, ls[..i], args, raises, depth).calls, raises, depth)
  {
    assert ls[..i + 1][..i] == ls[..i];
  }

  /** The calls of a nested dispatch, appended after a turn's own call. */
  lemma CallsRegroup(start: seq<Call>, prev: seq<Call>, c: Call, nested: seq<Call>)
    ensures start + prev + [c] + nested == start + (prev + [c] + nested)
  {
  }

  /** Once the recursion limit is hit, the rest of the listeners are not called. */
  lemma {:induction false} ListRunStops(extra: map<string, seq<Callable>>, cls: map<nat, Events>, ls: seq<Callable>, k: nat,
                                        args: seq<Arg>, raises: Call -> Option<PyError>, depth: nat)
    requires k <= |ls| && ListRun(extra, cls, ls[..k], args, raises, depth).overflow
    ensures ListRun(extra, cls, ls, args, raises, depth) == ListRun(extra, cls, ls[..k], args, raises, depth)
    decreases |ls| - k
  {
    if k < |ls| {
      assert ls[..|ls| - 1][..k] == ls[..k];
      ListRunStops(extra, cls, ls[..|ls| - 1], k, args, raises, depth);
    } else {
      assert ls[..k] == ls;
    }
  }

  /** An event nobody listens to calls nothing. */
  lemma UnknownEventCallsNothing(extra: map<string, seq<Callable>>, cls: map<nat, Events>, event: string, args: seq<Arg>,
                                 raises: Call -> Option<PyError>, depth: nat)
    requires event !in extra
    ensures EventRun(extra, cls, event, args, raises, depth) == Outcome([], false)
  {
  }

  /** When nothing raises, the calls are exactly the listeners in order, each with the arguments accumulated up to it. */
  lemma {:induction false} QuietRunExact(extra: map<string, seq<Callable>>, cls: map<nat, Events>, ls: seq<Callable>,
                                         args: seq<Arg>, raises: Call -> Option<PyError>, depth: nat)
    requires forall c :: raises(c).None?
    ensures !ListRun(extra, cls, ls, args, raises, depth).overflow
    ensures |ListRun(extra, cls, ls, args, raises, depth).calls| == |ls|
    ensures forall i :: 0 <= i < |ls| ==>
      ListRun(extra, cls, ls, args, raises, depth).calls[i] == Call(ls[i], ArgsAfter(ls[..i + 1], cls, args))
    decreases |ls|
  {
    if ls != [] {
      var init := ls[..|ls| - 1];
      QuietRunExact(extra, cls, init, args, raises, depth);
      var prev := ListRun(extra, cls, init, args, raises, depth).calls;
      var c := Call(ls[|ls| - 1], ArgsAfter(ls, cls, args));
      assert ListRun(extra, cls, ls, args, raises, depth) == Outcome(prev + [c], false) by {
        assert raises(c).None?;
      }
      forall i | 0 <= i < |ls| ensures (prev + [c])[i] == Call(ls[i], ArgsAfter(ls[..i + 1], cls, args)) {
        if i < |init| {
          assert ls[..i + 1] == init[..i + 1] && ls[i] == init[i];
        } else {
          assert ls[..i + 1] == ls;
        }
      }
    }
  }

  /**
   * A failure does not end the loop: unless the recursion limit is hit,
   * every listener is called, with its accumulated arguments.
   */
  lemma {:induction false} EveryListenerCalled(extra: map<string, seq<Callable>>, cls: map<nat, Events>, ls: seq<Callable>,
                                               args: seq<Arg>, raises: Call -> Option<PyError>, depth: nat, i: nat)
    requires i < |ls| && !ListRun(extra, cls, ls, args, raises, depth).overflow
    ensures Call(ls[i], ArgsAfter(ls[..i + 1], cls, args)) in ListRun(extra, cls, ls, args, raises, depth).calls
    decreases |ls|
  {
    var init := ls[..|ls| - 1];
    var prev := ListRun(extra, cls, init, args, raises, depth);
    assert !prev.overflow;
    if i < |init| {
      EveryListenerCalled(extra, cls, init, args, raises, depth, i);
      assert ls[..i + 1] == init[..i + 1] && ls[i] == init[i];
    } else {
      assert ls[..i + 1] == ls;
    }
  }

  /** A failing call is followed at once by the `dispatch_error` dispatch of that function and its exception. */
  lemma FailureRedispatched(extra: map<string, seq<Callable>>, cls: map<nat, Events>, ls: seq<Callable>,
                            args: seq<Arg>, raises: Call -> Option<PyError>, depth: nat, e: PyError)
    requires ls != [] && depth > 0
    requires !ListRun(extra, cls, ls[..|ls| - 1], args, raises, depth).overflow
    requires raises(Call(ls[|ls| - 1], ArgsAfter(ls, cls, args))) == Some(e)
    ensures ListRun(extra, cls, ls, args, raises, depth).calls
      == ListRun(extra, cls, ls[..|ls| - 1], args, raises, depth).calls
         + [Call(ls[|ls| - 1], ArgsAfter(ls, cls, args))]
         + EventRun(extra, cls, "dispatch_error", [Fn(ls[|ls| - 1]), Exc(e)], raises, depth - 1).calls
  {
  }

  /**
   * If every call raises and `dispatch_error` has a listener, a single
   * failure re-dispatches without end: the dispatch ends in a
   * `RecursionError` whatever the recursion limit.
   */
  lemma {:induction false} RaisingErrorListenerOverflows(extra: map<string, seq<Callable>>, cls: map<nat, Events>, event: string,
                                                         args: seq<Arg>, raises: Call -> Option<PyError>, depth: nat)
    requires forall c :: raises(c).Some?
    requires Lookup(extra, event) != [] && Lookup(extra, "dispatch_error") != []
    ensures EventRun(extra, cls, event, args, raises, depth).overflow
    decreases depth
  {
    var ls := Lookup(extra, event);
    var prev := ListRun(extra, cls, ls[..|ls| - 1], args, raises, depth);
    if !prev.overflow {
      var f := ls[|ls| - 1];
      var c := Call(f, ArgsAfter(ls, cls, args));
      assert ListRun(extra, cls, ls, args, raises, depth) == Turn(extra, cls, c, prev.calls, raises, depth);
      if depth > 0 {
        RaisingErrorListenerOverflows(extra, cls, "dispatch_error", [Fn(f), Exc(raises(c).value)], raises, depth - 1);
      }
    }
  }

  /** How `listen` is applied: `@listen` on a function, `@listen("x")`, or `@listen()` with the `MISSING` default. */
  datatype ListenArg = ListenFunc(f: Callable) | ListenName(s: string) | ListenMissing

  /** The name `listen` registers under; `f` is the function the returned decorator is applied to. */
  function ListenKey(arg: ListenArg, f: Callable): string
  {
    match arg
    case ListenFunc(g) => CallableName(g)
    case ListenName(s) => s
    case ListenMissing => CallableName(f)
  }

  /** `@listen` and `@listen()` register a function under the same name, its `__name__`; `@listen("x")` under `"x"`. */
  lemma ListenForms(f: Callable, g: Callable, s: string)
    ensures ListenKey(ListenFunc(f), g) == ListenKey(ListenMissing, f) == CallableName(f)
    ensures ListenKey(ListenName(s), f) == s
  {
  }

  /** The shared `cls` attributes of all handler objects. */
  class HandlerSlots {
    var cls: map<nat, Events>

    constructor ()
      ensures cls == map[]
    {
      cls := map[];
    }
  }

  /** An `Events` instance. `calls` records, in order, the calls its dispatches make. */
  class Events {
    const slots: HandlerSlots
    var extraEvents: map<string, seq<Callable>>
    var calls: seq<Call>

    /**
     * `Events.__init__`: every gathered handler gets this instance as its
     * `cls` (shared with every other instance of the class, so the newest
     * instance wins) and is registered under its event name.
     */
    constructor (slots: HandlerSlots, classEvents: seq<(string, EventHandler)>)
      modifies slots
      ensures this.slots == slots && calls == []
      ensures extraEvents == RegisterAll(map[], classEvents)
      ensures slots.cls == BindAll(old(slots.cls), classEvents, this)
    {
      this.slots := slots;
      extraEvents := map[];
      calls := [];
      new;
      var i := 0;
      while i < |classEvents|
        invariant 0 <= i <= |classEvents|
        invariant this.slots == slots && calls == []
        invariant extraEvents == RegisterAll(map[], classEvents[..i])
        invariant slots.cls == BindAll(old(slots.cls), classEvents[..i], this)
      {
        assert classEvents[..i + 1][..i] == classEvents[..i];
        var e := classEvents[i];
        slots.cls := slots.cls[e.1.id := this];
        AddListener(Handler(e.1), Some(e.0));
        i := i + 1;
      }
      assert classEvents[..i] == classEvents;
    }

    /** `add_listener(func, name)`: appends under `name`, by default the function's `__name__`, creating the list when absent. */
    method AddListener(func: Callable, name: Option<string>)
      modifies this
      ensures calls == old(calls)
      ensures extraEvents == Added(old(extraEvents), func, if name.Some? then name.value else CallableName(func))
    {
      var n := if name.Some? then name.value else CallableName(func);
      extraEvents := extraEvents[n := Lookup(extraEvents, n) + [func]];
    }

    /**
     * `listen(arg)`: a function argument is registered at once and returned;
     * otherwise the returned decorator registers `decorated` and returns it.
     */
    method Listen(arg: ListenArg, decorated: Callable) returns (registered: Callable)
      modifies this
      ensures registered == (if arg.ListenFunc? then arg.f else decorated)
      ensures calls == old(calls)
      ensures extraEvents == Added(old(extraEvents), registered, ListenKey(arg, registered))
    {
      registered := if arg.ListenFunc? then arg.f else decorated;
      var name := if arg.ListenName? then Some(arg.s) else None;
      AddListener(registered, name);
    }

    /**
     * `dispatch(event_name, *args)`. `raises` stands for what each listener
     * call raises; `depth` for the recursion limit left. The
     * `RecursionError` of exhausting it is the result.
     */
    method Dispatch(event: string, args: seq<Arg>, raises: Call -> Option<PyError>, depth: nat) returns (r: Result<(), PyError>)
      modifies this
      ensures extraEvents == old(extraEvents)
      ensures calls == old(calls) + EventRun(extraEvents, slots.cls, event, args, raises, depth).calls
      ensures r.Err? <==> EventRun(extraEvents, slots.cls, event, args, raises, depth).overflow
      ensures r.Err? ==> r.error == RecursionError
      decreases depth, 1, 0
    {
      var ls := Lookup(extraEvents, event);
      var a := args;
      var i := 0;
      r := Ok(());
      while i < |ls|
        invariant 0 <= i <= |ls| && extraEvents == old(extraEvents)
        invariant a == ArgsAfter(ls[..i], slots.cls, args)
        invariant !ListRun(extraEvents, slots.cls, ls[..i], args, raises, depth).overflow
        invariant calls == old(calls) + ListRun(extraEvents, slots.cls, ls[..i], args, raises, depth).calls
      {
        var stop;
        a, stop := CallOne(ls, i, a, args, raises, depth, old(calls));
        if stop {
          ListRunStops(extraEvents, slots.cls, ls, i + 1, args, raises, depth);
          return Err(RecursionError);
        }
        i := i + 1;
      }
      assert ls[..i] == ls;
    }

    /** One turn of the loop of `dispatch`: rebind the arguments, call, and re-dispatch a failure. */
    method CallOne(ls: seq<Callable>, i: nat, a: seq<Arg>, args: seq<Arg>, raises: Call -> Option<PyError>, depth: nat,
                   ghost start: seq<Call>) returns (a2: seq<Arg>, stop: bool)
      requires i < |ls| && a == ArgsAfter(ls[..i], slots.cls, args)
      requires !ListRun(extraEvents, slots.cls, ls[..i], args, raises, depth).overflow
      requires calls == start + ListRun(extraEvents, slots.cls, ls[..i], args, raises, depth).calls
      modifies this
      ensures extraEvents == old(extraEvents)
      ensures a2 == ArgsAfter(ls[..i + 1], slots.cls, args)
      ensures stop == ListRun(extraEvents, slots.cls, ls[..i + 1], args, raises, depth).overflow
      ensures calls == start + ListRun(extraEvents, slots.cls, ls[..i + 1], args, raises, depth).calls
      decreases depth, 0, 1
    {
      ListRunStep(extraEvents, slots.cls, ls, i, args, raises, depth);
      ghost var prev := ListRun(extraEvents, slots.cls, ls[..i], args, raises, depth).calls;
      var f := ls[i];
      a2 := a;
      if f.Handler? && f.h.id in slots.cls {
        a2 := [Instance(slots.cls[f.h.id])] + a;
      }
      var c := Call(f, a2);
      assert ListRun(extraEvents, slots.cls, ls[..i + 1], args, raises, depth) == Turn(extraEvents, slots.cls, c, prev, raises, depth);
      stop := RunTurn(c, prev, raises, depth, start);
    }

    /** The call `c` after the calls `prev`, then the nested `dispatch_error` when it raises. */
    method RunTurn(c: Call, ghost prev: seq<Call>, raises: Call -> Option<PyError>, depth: nat, ghost start: seq<Call>)
      returns (stop: bool)
      requires calls == start + prev
      modifies this
      ensures extraEvents == old(extraEvents)
      ensures stop == Turn(extraEvents, slots.cls, c, prev, raises, depth).overflow
      ensures calls == start + Turn(extraEvents, slots.cls, c, prev, raises, depth).calls
      decreases depth, 0, 0
    {
      calls := calls + [c];
      assert calls == start + prev + [c];
      var e := raises(c);
      stop := false;
      if e.Some? {
        if depth == 0 {
          stop := true;
        } else {
          ghost var nested := EventRun(extraEvents, slots.cls, "dispatch_error", [Fn(c.target), Exc(e.value)], raises, depth - 1);
          ghost var before := calls;
          var sub := Dispatch("dispatch_error", [Fn(c.target), Exc(e.value)], raises, depth - 1);
          assert calls == before + nested.calls;
          stop := sub.Err?;
          CallsRegroup(start, prev, c, nested.calls);
        }
      }
    }
  }
}
