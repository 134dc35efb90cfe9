/**
 * The event hub of `server/core/server.py`: the listener table, the
 * dispatch plan, how one scheduled listener runs, and the Socket.IO
 * connect, disconnect and catch-all handlers that keep the table of
 * connected clients.
 */
module Hub {
  import opened Wrappers
  import opened PyStr
  import opened PyValues
  import opened StrDict
  import opened Commands
  import opened Sessions

  /** The kind of a parameter of a listener's signature (`inspect.Parameter.kind`). */
  datatype ParamKind = PositionalOnly | PositionalOrKeyword | VarPositional | KeywordOnly | VarKeyword

  /**
   * A listener as the hub stores and compares it: the function's
   * `__name__`, the object it is bound to (for `==` of bound methods),
   * whether it is a coroutine function, and its signature without `self`.
   */
  datatype Listener = Listener(name: string, owner: string, isCoroutine: bool, params: seq<ParamKind>)

  /** One `_schedule_event` call: the callee, the event name handed to `on_error`, and the arguments. */
  datatype Scheduled = Scheduled(callee: Listener, eventName: string, args: seq<Value>)

  /**
   * How one scheduled listener ran: the arguments it was called with, the
   * `on_error` call made (event name and arguments), and the exception
   * that escaped the scheduled coroutine.
   */
  datatype RunResult = RunResult(calledWith: seq<Value>, errorCall: Option<seq<Value>>, escaped: Option<PyError>)

  /** What the `connect` handler did. */
  datatype ConnectOutcome =
    /** `"error"` was emitted to the room of the sid and the sid was disconnected. */
    | Rejected(room: string)
    /** An exception the handler does not catch left it. */
    | Escaped(error: PyError)
    /** The context was stored and `connect` dispatched with this plan. */
    | Admitted(plan: seq<Scheduled>)

  /** The message of the `"error"` event a failed login receives. */
  const LoginFailedMessage: string := "登入失敗"

  /** The built-in `on_*` coroutines of `BaseServer`, with their signatures without `self`. */
  function StandardBuiltins(): map<string, Listener>
  {
    map[
      "on_error" := Listener("on_error", "server", true, [PositionalOrKeyword, VarPositional, VarKeyword]),
      "on_connect" := Listener("on_connect", "server", true, [PositionalOrKeyword, PositionalOrKeyword]),
      "on_message" := Listener("on_message", "server", true, [PositionalOrKeyword, PositionalOrKeyword]),
      "on_disconnect" := Listener("on_disconnect", "server", true, [PositionalOrKeyword])
    ]
  }

  /** The command an `on_command_` listener name registers: its `_`-separated words after the second, joined by spaces. */
  function ListenerCommand(name: string): string
  {
    Join(" ", Tail(Split(name, '_'), 2))
  }

  /** The index of the first occurrence of `f`, as `list.index` finds it. */
  function IndexOf(lst: seq<Listener>, f: Listener): (i: nat)
    requires f in lst
    ensures i < |lst| && lst[i] == f && f !in lst[..i]
  {
    if lst[0] == f then 0
    else
      var j := IndexOf(lst[1..], f);
      assert lst[..j + 1] == [lst[0]] + lst[1..][..j];
      j + 1
  }

  /** `lst.remove(f)` without the `ValueError`: the first occurrence goes, an absent one changes nothing. */
  function RemoveFirst(lst: seq<Listener>, f: Listener): (r: seq<Listener>)
    ensures f !in lst ==> r == lst
    ensures f in lst ==> r == lst[..IndexOf(lst, f)] + lst[IndexOf(lst, f) + 1..]
  {
    if lst == [] then []
    else if lst[0] == f then lst[1..]
    else
      var rest := RemoveFirst(lst[1..], f);
      assert lst == [lst[0]] + lst[1..];
      if f in lst[1..] then
        RemoveFirstStep(lst, f, rest);
        [lst[0]] + rest
      else
        [lst[0]] + rest
  }

  lemma RemoveFirstStep(lst: seq<Listener>, f: Listener, rest: seq<Listener>)
    requires lst != [] && lst[0] != f && f in lst[1..]
    requires rest == lst[1..][..IndexOf(lst[1..], f)] + lst[1..][IndexOf(lst[1..], f) + 1..]
    ensures [lst[0]] + rest == lst[..IndexOf(lst, f)] + lst[IndexOf(lst, f) + 1..]
  {
    var j := IndexOf(lst[1..], f);
    assert IndexOf(lst, f) == j + 1;
    assert lst[..j + 1] == [lst[0]] + lst[1..][..j];
    assert lst[j + 2..] == lst[1..][j + 1..];
  }

  /** The calls `dispatch(e, *args)` schedules: the built-in `on_<e>` under its method name, then the listeners stored under `"on_<e>"` under `e`. */
  function DispatchPlan(builtins: map<string, Listener>, extra: map<string, seq<Listener>>, e: string, args: seq<Value>)
    : (r: seq<Scheduled>)
    ensures |r| == (if "on_" + e in builtins then 1 else 0) + (if "on_" + e in extra then |extra["on_" + e]| else 0)
    ensures forall i :: 0 <= i < |r| ==> r[i].args == args
    ensures "on_" + e in builtins ==> r[0].callee == builtins["on_" + e] && r[0].eventName == "on_" + e
    ensures forall i :: 0 <= i < |r| && (i > 0 || "on_" + e !in builtins) ==> r[i].eventName == e
  {
    var m := "on_" + e;
    (if m in builtins then [Scheduled(builtins[m], m, args)] else [])
    + (if m in extra then ListenerCalls(extra[m], e, args) else [])
  }

  function ListenerCalls(ls: seq<Listener>, e: string, args: seq<Value>): (r: seq<Scheduled>)
    ensures |r| == |ls| && forall i :: 0 <= i < |ls| ==> r[i] == Scheduled(ls[i], e, args)
  {
    seq(|ls|, i requires 0 <= i < |ls| => Scheduled(ls[i], e, args))
  }

  /** `__get_args_len`: -1 with a `*args` parameter, else the number of positional-or-keyword parameters. */
  method GetArgsLen(params: seq<ParamKind>) returns (count: int)
    ensures VarPositional in params ==> count == -1
    ensures VarPositional !in params ==> count == multiset(params)[PositionalOrKeyword]
  {
    count := 0;
    var i := 0;
    while i < |params|
      invariant 0 <= i <= |params|
      invariant VarPositional !in params[..i]
      invariant count == multiset(params[..i])[PositionalOrKeyword]
    {
      assert params[..i + 1] == params[..i] + [params[i]];
      if params[i] == VarPositional {
        return -1;
      }
      if params[i] == PositionalOrKeyword {
        count := count + 1;
      }
      i := i + 1;
    }
    assert params[..i] == params;
  }

  /** The arity `__get_args_len` computes. */
  function ArgsLen(params: seq<ParamKind>): int
  {
    if VarPositional in params then -1 else multiset(params)[PositionalOrKeyword]
  }

  /** The arguments `_run_event` passes: cut to the arity when it is known and smaller. */
  function PassedArgs(callee: Listener, args: seq<Value>): seq<Value>
  {
    var count := ArgsLen(callee.params);
    if callee.isCoroutine && count < |args| && count != -1 then args[..count] else args
  }

  /**
   * `_run_event`: the callee runs with the passed arguments. An `Exception`
   * from it (so not `CancelledError`) makes the hub await `on_error` with the
   * event name and the same arguments, and only a `CancelledError` from
   * `on_error` is swallowed.
   */
  function RunEvent(call: Scheduled, calleeRaises: Option<PyError>, onErrorRaises: Option<PyError>): (r: RunResult)
    ensures r.errorCall.Some? <==> calleeRaises.Some? && calleeRaises != Some(CancelledError)
    ensures r.errorCall.Some? ==> r.errorCall.value == [StrV(call.eventName)] + r.calledWith
    ensures r.escaped.Some? ==> (calleeRaises == Some(CancelledError) && r.escaped == calleeRaises)
                                 || (r.errorCall.Some? && r.escaped == onErrorRaises)
    ensures r.escaped != Some(CancelledError) || calleeRaises == Some(CancelledError)
  {
    var args := PassedArgs(call.callee, call.args);
    match calleeRaises
    case None => RunResult(args, None, None)
    case Some(CancelledError) => RunResult(args, None, Some(CancelledError))
    case Some(_) =>
      RunResult(args, Some([StrV(call.eventName)] + args),
                if onErrorRaises == Some(CancelledError) then None else onErrorRaises)
  }

  /** `int`-subscripting aside, `auth[key]`: a missing key is a `KeyError` and a non-dict a `TypeError`. */
  function Subscript(v: Value, key: string): (r: Result<Value, PyError>)
    ensures r.Err? ==> r.error == KeyError || r.error == TypeError
  {
    if !v.DictV? then Err(TypeError)
    else match DictGet(v.entries, StrV(key))
      case None => Err(KeyError)
      case Some(x) => Ok(x)
  }

  /** One element of the sequence `dict()` is given, as a key and value. */
  function PairOf(item: Value): Result<(Value, Value), PyError>
  {
    match item
    case ListV(xs) => if |xs| == 2 then Ok((xs[0], xs[1])) else Err(ValueError)
    case StrV(s) => if |s| == 2 then Ok((StrV([s[0]]), StrV([s[1]]))) else Err(ValueError)
    case DictV(es) => if |es| == 2 then Ok((es[0].0, es[1].0)) else Err(ValueError)
    case _ => Err(TypeError)
  }

  /** `dict(items)` for a list of pairs, entry by entry: an unhashable key is a `TypeError`. */
  function PairsToDict(items: seq<Value>, acc: seq<(Value, Value)>): (r: Result<seq<(Value, Value)>, PyError>)
    ensures r.Err? ==> r.error == TypeError || r.error == ValueError
    decreases |items|
  {
    if items == [] then Ok(acc)
    else match PairOf(items[0])
      case Err(e) => Err(e)
      case Ok((k, x)) =>
        if k.ListV? || k.DictV? then Err(TypeError) else PairsToDict(items[1..], DictSet(acc, k, x))
  }

  /** `dict(v)`: a copy of a dict, the pairs of a list, nothing from an empty `str`; other values raise. */
  function ToDict(v: Value): (r: Result<seq<(Value, Value)>, PyError>)
    ensures v.DictV? ==> r == Ok(v.entries)
    ensures v.NoneV? ==> r == Err(TypeError)
    ensures v.StrV? && v.s != "" ==> r == Err(ValueError)
    ensures r.Err? ==> r.error == TypeError || r.error == ValueError
  {
    match v
    case DictV(es) => Ok(es)
    case ListV(items) => PairsToDict(items, [])
    case StrV(s) => if s == "" then Ok([]) else Err(ValueError)
    case _ => Err(TypeError)
  }

  /**
   * `check_user`: the configured users' entry under the name, through
   * `dict()`, with an equal `"password"`. `recordTakesName` says whether the
   * user-record type accepts the `name` field; the `UserAuth` shown has only
   * `password` and `display_name`, so building it raises a `TypeError`, which
   * is swallowed like the other `TypeError`s here.
   */
  function CheckUser(users: Value, name: Value, password: Value, recordTakesName: bool): (r: Result<Option<UserData>, PyError>)
    ensures !users.DictV? ==> r == Err(AttributeError)
    ensures r.Err? ==> r.error == AttributeError || r.error == ValueError
    ensures r.Ok? && r.value.Some? <==>
      recordTakesName && UserRecord(users, name).Some?
      && PyEq(GetOrNone(DictV(UserRecord(users, name).value), "password"), password)
    ensures r.Ok? && r.value.Some? ==>
      r.value.value == UserData(name, GetOrNone(DictV(UserRecord(users, name).value), "display_name"))
    ensures UserRecord(users, name).Some? ==> r.Ok?
    ensures users.DictV? && (name.ListV? || name.DictV? || DictGet(users.entries, name).None?) ==> r == Ok(None)
  {
    if !users.DictV? then Err(AttributeError)
    else if name.ListV? || name.DictV? then Ok(None)
    else
      var entry := match DictGet(users.entries, name) case None => NoneV case Some(x) => x;
      match ToDict(entry)
      case Err(TypeError) => Ok(None)
      case Err(e) => Err(e)
      case Ok(d) =>
        var stored := GetOrNone(DictV(d), "password");
        if !PyEq(stored, password) || !recordTakesName then Ok(None)
        else Ok(Some(UserData(name, GetOrNone(DictV(d), "display_name"))))
  }

  /**
   * The configured record `check_user` compares against: the entry of the
   * `users` dict under a hashable name, as `dict()` converts it; none for
   * a missing name or an entry `dict()` refuses.
   */
  function UserRecord(users: Value, name: Value): Option<seq<(Value, Value)>>
  {
    if !users.DictV? || name.ListV? || name.DictV? then None
    else match DictGet(users.entries, name)
      case None => None
      case Some(x) => if ToDict(x).Ok? then Some(ToDict(x).value) else None
  }

  /** As shown, `check_user` never returns a user: every path ends in `None` or an exception. */
  lemma CheckUserAsShownNeverAdmits(users: Value, name: Value, password: Value)
    ensures CheckUser(users, name, password, false) == Ok(None) || CheckUser(users, name, password, false).Err?
  {
  }

  /** With a record type that takes the name, the configured password admits a dict entry. */
  lemma CheckUserAdmitsConfiguredPassword(entries: seq<(Value, Value)>, name: Value, d: seq<(Value, Value)>)
    requires !name.ListV? && !name.DictV? && !name.MissingV?
    requires DictGet(entries, name) == Some(DictV(d))
    requires DictGet(d, StrV("password")).Some? && !DictGet(d, StrV("password")).value.MissingV?
    ensures CheckUser(DictV(entries), name, DictGet(d, StrV("password")).value, true).Ok?
    ensures CheckUser(DictV(entries), name, DictGet(d, StrV("password")).value, true).value.Some?
  {
    var pw := DictGet(d, StrV("password")).value;
    assert GetOrNone(DictV(d), "password") == pw;
    assert PyEq(pw, pw);
  }

  /** Splitting a join of words without the separator gives the words back. */
  lemma {:induction false} SplitJoinWords(words: seq<string>, sep: char)
    requires |words| >= 1 && forall i :: 0 <= i < |words| ==> sep !in words[i]
    ensures Split(Join([sep], words), sep) == words
    decreases |words|
  {
    if |words| == 1 {
      SplitWord(words[0], sep);
    } else {
      SplitJoinWords(words[1..], sep);
      SplitAfterWord(words[0], sep, Join([sep], words[1..]));
      assert words == [words[0]] + words[1..];
    }
  }

  lemma {:induction false} SplitWord(w: string, sep: char)
    requires sep !in w
    ensures Split(w, sep) == [w]
    decreases |w|
  {
    if w != [] {
      assert sep !in w[1..] by {
        forall j | 0 <= j < |w[1..]| ensures w[1..][j] != sep {
          assert w[1..][j] == w[j + 1];
        }
      }
      SplitWord(w[1..], sep);
      assert [w[0]] + w[1..] == w;
    }
  }

  /** The listener `on_command_w1_..._wk` registers the command `"w1 ... wk"`. */
  lemma ListenerCommandWords(words: seq<string>)
    requires |words| >= 1 && forall i :: 0 <= i < |words| ==> '_' !in words[i]
    ensures ListenerCommand("on_command_" + Join("_", words)) == Join(" ", words)
  {
    var t := Join("_", words);
    SplitJoinWords(words, '_');
    ListenerCommandOf("on_command_" + t);
    assert ("on_command_" + t)[11..] == t;
  }

  /** The command of an `on_command_` name: the words of what follows the prefix. */
  lemma ListenerCommandOf(name: string)
    requires StartsWith(name, "on_command_")
    ensures Tail(Split(name, '_'), 2) == Split(name[11..], '_')
    ensures ListenerCommand(name) == Join(" ", Split(name[11..], '_'))
  {
    var t := name[11..];
    assert name == "on" + "_" + ("command" + "_" + t);
    SplitAfterWord("on", '_', "command" + "_" + t);
    SplitAfterWord("command", '_', t);
  }

  /**
   * Round trip with the command table: for a listener name without spaces,
   * the command it registers dispatches the event the hub looks up under
   * that very name.
   */
  lemma CommandRoundTrip(name: string)
    requires StartsWith(name, "on_command_") && ' ' !in name
    ensures "on_" + CommandEvent(ListenerCommand(name)) == name
  {
    var t := name[11..];
    ListenerCommandOf(name);
    SuffixAvoids(name, 11, ' ');
    EventOfWords(t);
    RejoinPrefix(name, "on_", "command_", 11);
  }

  /** A character missing from a string is missing from each of its suffixes. */
  lemma SuffixAvoids(s: string, k: nat, c: char)
    requires k <= |s| && c !in s
    ensures c !in s[k..]
  {
    forall j | 0 <= j < |s| - k ensures s[k..][j] != c {
      assert s[k..][j] == s[j + k];
    }
  }

  /** A string that starts with `a + b` is `a` followed by `b` followed by the rest. */
  lemma RejoinPrefix(s: string, a: string, b: string, k: nat)
    requires k == |a| + |b| && StartsWith(s, a + b)
    ensures a + (b + s[k..]) == s
  {
    assert s == s[..k] + s[k..];
  }

  /** The event of the command spelled by the `_`-separated words of `t` is `"command_" + t`. */
  lemma EventOfWords(t: string)
    requires ' ' !in t
    ensures CommandEvent(Join(" ", Split(t, '_'))) == "command_" + t
  {
    var pieces := Split(t, '_');
    SplitPiecesAvoid(t, '_', ' ');
    ReplaceJoinSeparator(pieces, ' ', '_');
    JoinSplit(t, '_');
  }

  /** Every scheduled call is the built-in `on_<e>` or a listener stored under `"on_<e>"`. */
  lemma PlanReachesOnlyOnPrefixed(builtins: map<string, Listener>, extra: map<string, seq<Listener>>, e: string, args: seq<Value>, c: Scheduled)
    requires c in DispatchPlan(builtins, extra, e, args)
    ensures ("on_" + e in builtins && c == Scheduled(builtins["on_" + e], "on_" + e, args))
      || ("on_" + e in extra && c.callee in extra["on_" + e] && c.eventName == e && c.args == args)
  {
    var m := "on_" + e;
    var head := if m in builtins then [Scheduled(builtins[m], m, args)] else [];
    var tail := if m in extra then ListenerCalls(extra[m], e, args) else [];
    assert DispatchPlan(builtins, extra, e, args) == head + tail;
    if c !in head {
      var i :| 0 <= i < |tail| && tail[i] == c;
      assert c.callee == extra[m][i];
    }
  }

  /** A listener added under `"on_<e>"` is scheduled last when `e` is dispatched. */
  lemma AddedListenerRunsLast(builtins: map<string, Listener>, extra: map<string, seq<Listener>>, e: string, args: seq<Value>, f: Listener)
    ensures var m := "on_" + e;
      var extra2 := extra[m := (if m in extra then extra[m] else []) + [f]];
      DispatchPlan(builtins, extra2, e, args) == DispatchPlan(builtins, extra, e, args) + [Scheduled(f, e, args)]
  {
    var m := "on_" + e;
    var before := if m in extra then extra[m] else [];
    assert ListenerCalls(before + [f], e, args) == ListenerCalls(before, e, args) + [Scheduled(f, e, args)];
    if m !in extra {
      assert ListenerCalls([], e, args) == [];
    }
  }

  /** A name without the `on_` prefix, such as `"cmd_callback"`, changes no dispatch plan, whatever is stored under it. */
  lemma UnprefixedNameNeverDispatched(builtins: map<string, Listener>, extra: map<string, seq<Listener>>, name: string, ls: seq<Listener>, e: string, args: seq<Value>)
    requires !StartsWith(name, "on_")
    ensures DispatchPlan(builtins, extra[name := ls], e, args) == DispatchPlan(builtins, extra, e, args)
  {
    var m := "on_" + e;
    assert m[..3] == "on_";
    assert m != name;
  }

  /** `_run_event` passes a prefix of the arguments, all of them when the arity is unknown (`*args`) or not smaller. */
  lemma PassedArgsPrefix(callee: Listener, args: seq<Value>)
    ensures |PassedArgs(callee, args)| <= |args| && PassedArgs(callee, args) == args[..|PassedArgs(callee, args)|]
    ensures ArgsLen(callee.params) == -1 || ArgsLen(callee.params) >= |args| ==> PassedArgs(callee, args) == args
  {
  }

  /**
   * The error path of `_run_event`: `on_error` sees the event name and the
   * already cut arguments; a `CancelledError` from the callee skips it and
   * escapes; of `on_error`'s own exceptions only `CancelledError` is swallowed.
   */
  lemma RunEventErrors(call: Scheduled, calleeRaises: Option<PyError>, onErrorRaises: Option<PyError>)
    ensures calleeRaises.None? ==>
      RunEvent(call, calleeRaises, onErrorRaises).errorCall.None?
      && RunEvent(call, calleeRaises, onErrorRaises).escaped.None?
    ensures calleeRaises == Some(CancelledError) ==>
      RunEvent(call, calleeRaises, onErrorRaises).errorCall.None?
      && RunEvent(call, calleeRaises, onErrorRaises).escaped == Some(CancelledError)
    ensures calleeRaises.Some? && calleeRaises != Some(CancelledError) ==>
      RunEvent(call, calleeRaises, onErrorRaises).errorCall == Some([StrV(call.eventName)] + PassedArgs(call.callee, call.args))
      && (RunEvent(call, calleeRaises, onErrorRaises).escaped.None? <==> onErrorRaises.None? || onErrorRaises == Some(CancelledError))
  {
  }

  /** The `on_error` call of a built-in names its method `"on_<e>"`, of a stored listener the bare event `e`. */
  lemma ErrorEventNames(builtins: map<string, Listener>, extra: map<string, seq<Listener>>, e: string, args: seq<Value>, i: nat)
    requires i < |DispatchPlan(builtins, extra, e, args)|
    ensures "on_" + e in builtins && i == 0 ==> DispatchPlan(builtins, extra, e, args)[i].eventName == "on_" + e
    ensures !("on_" + e in builtins && i == 0) ==> DispatchPlan(builtins, extra, e, args)[i].eventName == e
  {
  }

  /** The catch-all handler's arguments: the sender's context (or `None`), then a list payload spread or another payload as one argument. */
  function CatchAllArgs(sender: Value, data: Value): (r: seq<Value>)
    ensures |r| >= 1 && r[0] == sender
    ensures data.ListV? ==> r[1..] == data.items
    ensures !data.ListV? ==> r[1..] == [data]
  {
    [sender] + (if data.ListV? then data.items else [data])
  }

  /** The bound `_cmd_callback_callback` of the context of `sid`: a coroutine taking the sender and the result. */
  function CmdCallbackListener(sid: string): Listener
  {
    Listener("_cmd_callback_callback", "Context " + sid, true, [PositionalOrKeyword, PositionalOrKeyword])
  }

  /** `BaseServer.emit`: passes `to` as given and `skip_sid` as a list. */
  function ServerEmit(event: string, data: seq<Value>, to: Value, room: Value, skipSid: Value): (e: Emission)
    ensures e.to == to && e.skipSid == SkipSidList(skipSid) && e.event == event && e.data == data && e.room == room
  {
    Emission(event, data, to, room, SkipSidList(skipSid))
  }

  /** The relay server. */
  class BaseServer {
    /** `extra_events`: listeners by name, in registration order. */
    var extraEvents: map<string, seq<Listener>>
    /** `clients`: the contexts of the logged-in sessions by sid. */
    var clients: map<string, Context>
    /** The `on_*` attributes `dispatch` finds with `getattr`. */
    const builtins: map<string, Listener>
    const commandManager: CommandManager
    /**
     * Whether the server has a `loop` attribute. No server class of the
     * repository sets one, yet `Context` and `Plugin` read `server.loop`.
     */
    const hasLoop: bool

    ghost predicate Valid()
      reads this, commandManager
    {
      commandManager.Valid()
    }

    constructor (builtins: map<string, Listener>, hasLoop: bool)
      ensures Valid() && fresh(commandManager)
      ensures this.builtins == builtins && this.hasLoop == hasLoop
      ensures extraEvents == map[] && clients == map[] && commandManager.commands == []
    {
      this.builtins := builtins;
      this.hasLoop := hasLoop;
      extraEvents := map[];
      clients := map[];
      commandManager := new CommandManager();
    }

    /**
     * `add_listener`: a non-coroutine is a `TypeError` before either table
     * changes; otherwise an `on_command_` name registers its command, and
     * the listener is appended under its name, duplicates allowed.
     */
    method AddListener(func: Listener, name: Option<string>) returns (r: Result<(), PyError>)
      requires Valid()
      modifies this, commandManager
      ensures Valid() && clients == old(clients)
      ensures !func.isCoroutine ==>
        r == Err(TypeError) && extraEvents == old(extraEvents)
        && commandManager.commands == old(commandManager.commands)
      ensures func.isCoroutine ==>
        r == Ok(())
        && extraEvents == old(extraEvents)[ListenerName(func, name) := Registered(old(extraEvents), ListenerName(func, name)) + [func]]
      ensures func.isCoroutine && StartsWith(ListenerName(func, name), "on_command_") ==>
        commandManager.commands == Put(old(commandManager.commands), ListenerCommand(ListenerName(func, name)), None)
      ensures !StartsWith(ListenerName(func, name), "on_command_") ==> commandManager.commands == old(commandManager.commands)
    {
      var n := ListenerName(func, name);
      if !func.isCoroutine {
        return Err(TypeError);
      }
      if StartsWith(n, "on_command_") {
        commandManager.AddCommand(ListenerCommand(n), None);
      }
      extraEvents := extraEvents[n := Registered(extraEvents, n) + [func]];
      r := Ok(());
    }

    /**
     * `remove_listener`: an `on_command_` name removes its command even if
     * other listeners remain under it; the first occurrence of the
     * listener goes, and an absent one changes nothing.
     */
    method RemoveListener(func: Listener, name: Option<string>)
      requires Valid()
      modifies this, commandManager
      ensures Valid() && clients == old(clients)
      ensures ListenerName(func, name) in old(extraEvents) ==>
        extraEvents == old(extraEvents)[ListenerName(func, name) := RemoveFirst(old(extraEvents)[ListenerName(func, name)], func)]
      ensures ListenerName(func, name) !in old(extraEvents) ==> extraEvents == old(extraEvents)
      ensures StartsWith(ListenerName(func, name), "on_command_") ==>
        commandManager.commands == Without(old(commandManager.commands), {ListenerCommand(ListenerName(func, name))})
      ensures !StartsWith(ListenerName(func, name), "on_command_") ==> commandManager.commands == old(commandManager.commands)
    {
      var n := ListenerName(func, name);
      if StartsWith(n, "on_command_") {
        commandManager.RemoveCommand([ListenerCommand(n)]);
        assert NameSet([ListenerCommand(n)]) == {ListenerCommand(n)};
      }
      if n in extraEvents {
        extraEvents := extraEvents[n := RemoveFirst(extraEvents[n], func)];
      }
    }

    /** `dispatch`: schedules the built-in `on_<e>`, then each listener stored under `"on_<e>"`, in order. */
    method Dispatch(e: string, args: seq<Value>) returns (plan: seq<Scheduled>)
      ensures plan == DispatchPlan(builtins, extraEvents, e, args)
    {
      var m := "on_" + e;
      plan := [];
      if m in builtins {
        plan := [Scheduled(builtins[m], m, args)];
      }
      var head := plan;
      if m in extraEvents {
        var ls := extraEvents[m];
        var i := 0;
        while i < |ls|
          invariant 0 <= i <= |ls|
          invariant plan == head + ListenerCalls(ls[..i], e, args)
        {
          assert ListenerCalls(ls[..i + 1], e, args) == ListenerCalls(ls[..i], e, args) + [Scheduled(ls[i], e, args)];
          plan := plan + [Scheduled(ls[i], e, args)];
          i := i + 1;
        }
        assert ls[..i] == ls;
      }
    }

    /**
     * The `connect` handler: `auth["name"]` and `auth["password"]` are read,
     * then `check_user`; a `TypeError`, `KeyError` or failed login rejects the
     * sid without touching `clients`, and a returned user is admitted.
     */
    method Connect(sid: string, auth: Value, users: Value, recordTakesName: bool) returns (r: ConnectOutcome)
      requires Valid()
      modifies this, commandManager
      ensures Valid() && commandManager.commands == old(commandManager.commands)
      ensures !r.Admitted? ==> clients == old(clients) && extraEvents == old(extraEvents)
      ensures r.Rejected? ==> r.room == sid
      ensures r.Admitted? <==> LoginUser(auth, users, recordTakesName).Ok? && LoginUser(auth, users, recordTakesName).value.Some?
      ensures r.Escaped? <==> LoginUser(auth, users, recordTakesName).Err?
      ensures r.Admitted? ==>
        sid in clients && clients[sid].sid == sid
        && clients[sid].user == LoginUser(auth, users, recordTakesName).value.value && clients[sid].rcon.None?
        && clients.Keys == old(clients).Keys + {sid}
        && r.plan == DispatchPlan(builtins, extraEvents, "connect", [ObjectV("Context", sid), auth])
    {
      var name := Subscript(auth, "name");
      if name.Err? {
        return Rejected(sid);
      }
      var password := Subscript(auth, "password");
      if password.Err? {
        return Rejected(sid);
      }
      var user := CheckUser(users, name.value, password.value, recordTakesName);
      if user.Err? {
        return Escaped(user.error);
      }
      if user.value.None? {
        return Rejected(sid);
      }
      var plan := Admit(sid, user.value.value, auth);
      r := Admitted(plan);
    }

    /**
     * The success branch of `connect` with `get_context`: a `Context` with
     * the default empty `auth` registers its callback under `"cmd_callback"`,
     * is stored under the sid, and then `connect` is dispatched. An empty
     * `auth` has no RCON settings, so `server.loop` is not read.
     */
    method Admit(sid: string, user: UserData, auth: Value) returns (plan: seq<Scheduled>)
      requires Valid()
      modifies this, commandManager
      ensures Valid() && commandManager.commands == old(commandManager.commands)
      ensures sid in clients && fresh(clients[sid]) && clients[sid].sid == sid && clients[sid].user == user
      ensures clients[sid].auth == DictV([]) && clients[sid].rcon.None? && clients[sid].waiters == map[]
      ensures clients[sid].hasLoop == hasLoop
      ensures clients == old(clients)[sid := clients[sid]]
      ensures extraEvents == old(extraEvents)["cmd_callback" := Registered(old(extraEvents), "cmd_callback") + [CmdCallbackListener(sid)]]
      ensures plan == DispatchPlan(builtins, extraEvents, "connect", [ObjectV("Context", sid), auth])
    {
      EmptyAuthHasNoRcon(hasLoop);
      CallbackNameIsNoCommand();
      var ctx := new Context(sid, user, DictV([]), hasLoop, None);
      var _ := AddListener(CmdCallbackListener(sid), Some("cmd_callback"));
      clients := clients[sid := ctx];
      plan := Dispatch("connect", [ObjectV("Context", sid), auth]);
    }

    /** The `disconnect` handler: an unknown sid does nothing; otherwise the context is popped and `disconnect` dispatched. */
    method Disconnect(sid: string) returns (plan: seq<Scheduled>)
      modifies this
      ensures extraEvents == old(extraEvents)
      ensures sid !in old(clients) ==> plan == [] && clients == old(clients)
      ensures sid in old(clients) ==>
        clients == old(clients) - {sid}
        && plan == DispatchPlan(builtins, extraEvents, "disconnect", [ObjectV("Context", sid)])
    {
      if sid !in clients {
        return [];
      }
      clients := clients - {sid};
      plan := Dispatch("disconnect", [ObjectV("Context", sid)]);
    }

    /** The catch-all handler: dispatches the event with the sender's context (or `None`) and the payload. */
    method ElseEvent(eventName: string, sid: string, data: Value) returns (plan: seq<Scheduled>)
      ensures plan == DispatchPlan(builtins, extraEvents, eventName,
        CatchAllArgs(if sid in clients then ObjectV("Context", sid) else NoneV, data))
    {
      var args := [data];
      if data.ListV? {
        args := data.items;
      }
      var sender := if sid in clients then ObjectV("Context", sid) else NoneV;
      plan := Dispatch(eventName, [sender] + args);
    }

    /** `Context.__del__`: removes the context's callback from under `"cmd_callback"`. */
    method FinalizeContext(sid: string)
      requires Valid()
      modifies this, commandManager
      ensures Valid() && commandManager.commands == old(commandManager.commands) && clients == old(clients)
      ensures "cmd_callback" in old(extraEvents) ==>
        extraEvents == old(extraEvents)["cmd_callback" := RemoveFirst(old(extraEvents)["cmd_callback"], CmdCallbackListener(sid))]
      ensures "cmd_callback" !in old(extraEvents) ==> extraEvents == old(extraEvents)
    {
      CallbackNameIsNoCommand();
      RemoveListener(CmdCallbackListener(sid), Some("cmd_callback"));
    }
  }

  /** The name the contexts' callbacks are stored under registers no command. */
  lemma CallbackNameIsNoCommand()
    ensures !StartsWith("cmd_callback", "on_command_")
  {
    assert "cmd_callback"[0] != "on_command_"[0];
  }

  /** The name a listener is stored under: the given one, else the function's `__name__`. */
  function ListenerName(func: Listener, name: Option<string>): string
  {
    if name.Some? then name.value else func.name
  }

  /** The listeners stored under `n`, none when the name is new. */
  function Registered(extra: map<string, seq<Listener>>, n: string): seq<Listener>
  {
    if n in extra then extra[n] else []
  }

  /** What the `connect` handler's `try` block yields: the user `check_user` returns for `auth["name"]` and `auth["password"]`. */
  function LoginUser(auth: Value, users: Value, recordTakesName: bool): (r: Result<Option<UserData>, PyError>)
    ensures r.Err? ==> r.error == AttributeError || r.error == ValueError
  {
    var name := Subscript(auth, "name");
    var password := Subscript(auth, "password");
    if name.Err? || password.Err? then Ok(None)
    else CheckUser(users, name.value, password.value, recordTakesName)
  }

  /** As shown, every `connect` is rejected or fails: no session is ever stored. */
  lemma NoLoginAsShown(auth: Value, users: Value)
    ensures LoginUser(auth, users, false).Ok? ==> LoginUser(auth, users, false).value.None?
  {
  }

  /** A malformed `auth` (not a dict, or without `name` or `password`) is rejected, not escaped. */
  lemma MalformedAuthRejected(auth: Value, users: Value, recordTakesName: bool)
    requires Subscript(auth, "name").Err? || Subscript(auth, "password").Err?
    ensures LoginUser(auth, users, recordTakesName) == Ok(None)
  {
  }
}
