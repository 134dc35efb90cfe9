/**
 * The per-connection session `Context` of `server/context.py`: who is
 * connected under which session id, the waiters of `extra_command`, the
 * target choice of `emit`, and the comparison and naming rules.
 */
module Sessions {
  import opened Wrappers
  import opened PyStr
  import opened PyValues

  /** The user record of a session: the login name and the configured `display_name` (`None` when unset). */
  datatype UserData = UserData(name: Value, displayName: Value)

  /** The state of one `extra_command` future. */
  datatype Waiter = Pending | Done(result: Value) | Cancelled

  /** One call of the Socket.IO server's `emit`, as the hub passes it on. */
  datatype Emission = Emission(event: string, data: seq<Value>, to: Value, room: Value, skipSid: seq<Value>)

  /** The connection settings of the RCON client a context builds: host and password as given, the port through `int()`. */
  datatype RconConfig = RconConfig(host: Value, port: int, password: Value)

  /** What `execute_command` does: return `...`, or connect and execute over RCON. */
  datatype ExecOutcome = NoRcon | ExecuteOver(config: RconConfig, command: string)

  /** The right operand of `ctx <= other`. */
  datatype LeOperand = AContext(c: Context) | AValue(v: Value)

  /** `int(v)` as `RconClient.__init__` applies it to a port value. */
  function PortNumber(v: Value): (r: Result<int, PyError>)
    ensures v.IntV? ==> r == Ok(v.i)
    ensures v.StrV? ==> (r.Ok? <==> ParseInt(v.s).Some?)
    ensures v.NoneV? || v.ListV? || v.DictV? || v.MissingV? || v.EllipsisV? || v.ObjectV? || v.EnumV? ==> r == Err(TypeError)
  {
    match v
    case IntV(i) => Ok(i)
    case BoolV(b) => Ok(if b then 1 else 0)
    case FloatV(x) => Ok(if x >= 0.0 then x.Floor else -((-x).Floor))
    case StrV(s) => (if ParseInt(s).None? then Err(ValueError) else Ok(ParseInt(s).value))
    case _ => Err(TypeError)
  }

  /** `d.get(name, None)` */
  function GetOrNone(d: Value, name: string): Value
  {
    match Get(d, name)
    case None => NoneV
    case Some(v) => v
  }

  /**
   * The RCON client `Context.__init__` builds from `auth`: only when
   * `auth["rcon"]` is a dict, from its `ip`, `port` and `password`
   * (each `None` when absent, then `"localhost"`, 25575 and `""`).
   * The call also passes `loop=server.loop`, which raises
   * `AttributeError` on a server without a `loop` attribute (`hasLoop`).
   */
  function RconFor(auth: Value, hasLoop: bool): (r: Result<Option<RconConfig>, PyError>)
    ensures (Get(auth, "rcon").None? || !Get(auth, "rcon").value.DictV?) ==> r == Ok(None)
    ensures Get(auth, "rcon").Some? && Get(auth, "rcon").value.DictV? && !hasLoop ==> r == Err(AttributeError)
    ensures r.Ok? && r.value.Some? ==> Get(auth, "rcon").Some? && Get(auth, "rcon").value.DictV? && hasLoop
    ensures r.Ok? && r.value.Some? ==>
      var rc := Get(auth, "rcon").value;
      r.value.value.host == (if GetOrNone(rc, "ip").NoneV? then StrV("localhost") else GetOrNone(rc, "ip"))
      && r.value.value.password == (if GetOrNone(rc, "password").NoneV? then StrV("") else GetOrNone(rc, "password"))
  {
    match Get(auth, "rcon")
    case Some(DictV(entries)) =>
      var rc := DictV(entries);
      var ip := GetOrNone(rc, "ip");
      var port := GetOrNone(rc, "port");
      var pw := GetOrNone(rc, "password");
      if !hasLoop then Err(AttributeError)
      else
      var number := if port.NoneV? then Ok(25575) else PortNumber(port);
      if number.Err? then Err(number.error)
      else Ok(Some(RconConfig(if ip.NoneV? then StrV("localhost") else ip, number.value,
                              if pw.NoneV? then StrV("") else pw)))
    case _ => Ok(None)
  }

  /** The target `emit` passes on: the own sid when no `to` was given, the sid is non-empty and `skip_sid` is falsy. */
  function EmitTarget(sid: string, to: Value, skipSid: Value): Value
  {
    if to.MissingV? && sid != "" && !Truthy(skipSid) then StrV(sid) else to
  }

  /** `skip_sid` as `emit` passes it on: a list as it is, anything else wrapped in a one-element list. */
  function SkipSidList(skipSid: Value): seq<Value>
  {
    if skipSid.ListV? then skipSid.items else [skipSid]
  }

  /** An explicit `to` is always the target. */
  lemma ExplicitTargetWins(sid: string, to: Value, skipSid: Value)
    requires !to.MissingV?
    ensures EmitTarget(sid, to, skipSid) == to
  {
  }

  /**
   * Without `to`, the message goes to the own sid exactly when the sid is
   * non-empty and `skip_sid` is falsy; otherwise the `MISSING` sentinel
   * itself is passed on as the target.
   */
  lemma DefaultTarget(sid: string, skipSid: Value)
    ensures EmitTarget(sid, MissingV, skipSid) == StrV(sid) <==> sid != "" && !Truthy(skipSid)
    ensures EmitTarget(sid, MissingV, skipSid) != StrV(sid) ==> EmitTarget(sid, MissingV, skipSid) == MissingV
  {
  }

  /** Wrapping `skip_sid` is idempotent: a wrapped value passes through unchanged, and a non-list becomes its only element. */
  lemma SkipSidListIdempotent(skipSid: Value)
    ensures SkipSidList(ListV(SkipSidList(skipSid))) == SkipSidList(skipSid)
    ensures !skipSid.ListV? ==> |SkipSidList(skipSid)| == 1 && SkipSidList(skipSid)[0] == skipSid
  {
  }

  /** What `_cmd_callback_callback` returns for a result, given the waiters. */
  function CallbackResult(waiters: map<string, Waiter>, result: Value): (r: Result<(), PyError>)
    ensures r.Err? ==> r.error == AttributeError || r.error == TypeError || r.error == CancelledError
    ensures r == Err(AttributeError) <==> !result.DictV?
    ensures r == Err(CancelledError) ==>
      GetOrNone(result, "command").StrV? && GetOrNone(result, "command").s in waiters
      && waiters[GetOrNone(result, "command").s].Cancelled?
  {
    if !result.DictV? then Err(AttributeError)
    else
      var command := GetOrNone(result, "command");
      if !Truthy(command) then Ok(())
      else if command.ListV? || command.DictV? then Err(TypeError)
      else if command.StrV? && command.s in waiters && waiters[command.s].Cancelled? then Err(CancelledError)
      else Ok(())
  }

  /**
   * The waiters after `_cmd_callback_callback`: iterating the future stored
   * under the command yields it once while it is pending, and the loop body
   * resolves it with the result; a resolved future yields nothing.
   */
  function CallbackWaiters(waiters: map<string, Waiter>, result: Value): map<string, Waiter>
  {
    if !result.DictV? then waiters
    else
      var command := GetOrNone(result, "command");
      if Truthy(command) && command.StrV? && command.s in waiters && waiters[command.s].Pending? then
        waiters[command.s := Done(result)]
      else waiters
  }

  /** A callback result resolves at most the waiter under its own command, and never adds one. */
  lemma CallbackTouchesOnlyItsCommand(waiters: map<string, Waiter>, result: Value, k: string)
    requires k in waiters
    requires !(result.DictV? && GetOrNone(result, "command") == StrV(k))
    ensures k in CallbackWaiters(waiters, result) && CallbackWaiters(waiters, result)[k] == waiters[k]
    ensures CallbackWaiters(waiters, result).Keys == waiters.Keys
  {
  }

  /** A result whose `"command"` is missing or empty resolves nothing and raises nothing. */
  lemma MissingCommandResolvesNothing(waiters: map<string, Waiter>, entries: seq<(Value, Value)>)
    requires !Truthy(GetOrNone(DictV(entries), "command"))
    ensures CallbackResult(waiters, DictV(entries)) == Ok(())
    ensures CallbackWaiters(waiters, DictV(entries)) == waiters
  {
  }

  /**
   * The reply to an `extra_command` call: a result naming the command
   * resolves the fresh waiter with that result.
   */
  lemma ReplyResolvesWaiter(waiters: map<string, Waiter>, command: string, entries: seq<(Value, Value)>)
    requires command != "" && GetOrNone(DictV(entries), "command") == StrV(command)
    ensures CallbackResult(waiters[command := Pending], DictV(entries)) == Ok(())
    ensures CallbackWaiters(waiters[command := Pending], DictV(entries)) == waiters[command := Done(DictV(entries))]
  {
  }

  /**
   * A waiter that timed out stays in the table cancelled, and a later
   * reply for that command raises `CancelledError` from the callback.
   */
  lemma LateReplyRaises(waiters: map<string, Waiter>, command: string, entries: seq<(Value, Value)>)
    requires command != "" && GetOrNone(DictV(entries), "command") == StrV(command)
    requires command in waiters && waiters[command].Cancelled?
    ensures CallbackResult(waiters, DictV(entries)) == Err(CancelledError)
    ensures CallbackWaiters(waiters, DictV(entries)) == waiters
  {
  }

  /**
   * `Context.__init__` past the callback registration, which is the
   * hub's part: the RCON settings are built from `auth`, and their error
   * escapes the constructor.
   */
  method NewContext(sid: string, user: UserData, auth: Value, hasLoop: bool) returns (r: Result<Context, PyError>)
    ensures RconFor(auth, hasLoop).Err? ==> r == Err(RconFor(auth, hasLoop).error)
    ensures RconFor(auth, hasLoop).Ok? ==>
      r.Ok? && fresh(r.value) && r.value.sid == sid && r.value.user == user && r.value.auth == auth
      && r.value.hasLoop == hasLoop && r.value.rcon == RconFor(auth, hasLoop).value && r.value.waiters == map[]
  {
    var rcon := RconFor(auth, hasLoop);
    if rcon.Err? {
      return Err(rcon.error);
    }
    var ctx := new Context(sid, user, auth, hasLoop, rcon.value);
    return Ok(ctx);
  }

  /** A session of one connected client. */
  class Context {
    const sid: string
    const user: UserData
    const auth: Value
    /** Whether the server has a `loop` attribute, which `extra_command` reads. */
    const hasLoop: bool
    const rcon: Option<RconConfig>
    /** `_extra_command_wait`: one future per command string. */
    var waiters: map<string, Waiter>

    /** A context whose RCON settings `RconFor` built without an error. */
    constructor (sid: string, user: UserData, auth: Value, hasLoop: bool, rcon: Option<RconConfig>)
      requires RconFor(auth, hasLoop) == Ok(rcon)
      ensures this.sid == sid && this.user == user && this.auth == auth && this.rcon == rcon
      ensures this.hasLoop == hasLoop && waiters == map[]
    {
      this.sid := sid;
      this.user := user;
      this.auth := auth;
      this.hasLoop := hasLoop;
      this.rcon := rcon;
      waiters := map[];
    }

    /** `name` */
    function Name(): Value
    {
      user.name
    }

    /** `display_name`: the display name when it is truthy, else the user name. */
    function DisplayName(): (r: Value)
      ensures Truthy(user.displayName) ==> r == user.displayName
      ensures !Truthy(user.displayName) ==> r == user.name
    {
      if Truthy(user.displayName) then user.displayName else user.name
    }

    /** `emit`: the event and data, sent to the chosen target with `skip_sid` as a list. */
    function Emit(event: string, data: seq<Value>, to: Value, room: Value, skipSid: Value): (e: Emission)
      ensures e.event == event && e.data == data && e.room == room
      ensures e.to == EmitTarget(sid, to, skipSid) && e.skipSid == SkipSidList(skipSid)
    {
      Emission(event, data, EmitTarget(sid, to, skipSid), room, SkipSidList(skipSid))
    }

    /** `ctx <= other`: same user name and sid for a context, same user name for a `str`, else `None`. */
    function LessEq(other: LeOperand): (r: Option<bool>)
      ensures other.AContext? ==> r == Some(PyEq(user.name, other.c.user.name) && sid == other.c.sid)
      ensures other.AValue? && other.v.StrV? ==> r == Some(PyEq(user.name, other.v))
      ensures other.AValue? && !other.v.StrV? ==> r.None?
    {
      match other
      case AContext(c) => Some(PyEq(user.name, c.user.name) && sid == c.sid)
      case AValue(StrV(s)) => Some(PyEq(user.name, StrV(s)))
      case AValue(_) => None
    }

    /** `_cmd_callback_callback`: resolves the pending waiter stored under the result's command. */
    method CmdCallback(result: Value) returns (r: Result<(), PyError>)
      modifies this
      ensures r == CallbackResult(old(waiters), result)
      ensures waiters == CallbackWaiters(old(waiters), result)
    {
      if !result.DictV? {
        return Err(AttributeError);
      }
      var command := GetOrNone(result, "command");
      if !Truthy(command) {
        return Ok(());
      }
      if command.ListV? || command.DictV? {
        return Err(TypeError);
      }
      r := Ok(());
      if command.StrV? && command.s in waiters {
        match waiters[command.s]
        case Pending => waiters := waiters[command.s := Done(result)];
        case Done(_) =>
        case Cancelled => r := Err(CancelledError);
      }
    }

    /**
     * `extra_command`: emits `"extra_command"` with the command, then
     * stores a fresh waiter under it. The future is built with
     * `loop=self.server.loop`, so on a server without `loop` the emit has
     * happened and `AttributeError` is raised with no waiter stored.
     */
    method ExtraCommand(command: string) returns (e: Emission, r: Result<(), PyError>)
      modifies this
      ensures e == Emit("extra_command", [StrV(command)], MissingV, NoneV, NoneV)
      ensures r.Ok? <==> hasLoop
      ensures r.Ok? ==> waiters == old(waiters)[command := Pending]
      ensures r.Err? ==> r.error == AttributeError && waiters == old(waiters)
    {
      e := Emit("extra_command", [StrV(command)], MissingV, NoneV, NoneV);
      if !hasLoop {
        return e, Err(AttributeError);
      }
      waiters := waiters[command := Pending];
      r := Ok(());
    }

    /** The timeout of `asyncio.wait_for` in `extra_command`: a waiter still pending is cancelled. */
    method TimeOut(command: string)
      modifies this
      ensures command in old(waiters) && old(waiters)[command].Pending? ==> waiters == old(waiters)[command := Cancelled]
      ensures !(command in old(waiters) && old(waiters)[command].Pending?) ==> waiters == old(waiters)
    {
      if command in waiters && waiters[command].Pending? {
        waiters := waiters[command := Cancelled];
      }
    }

    /** `execute_command`: without an RCON client, `...` and nothing is contacted. */
    method ExecuteCommand(command: string) returns (r: ExecOutcome)
      ensures rcon.None? <==> r == NoRcon
      ensures rcon.Some? ==> r == ExecuteOver(rcon.value, command)
    {
      if rcon.None? {
        return NoRcon;
      }
      r := ExecuteOver(rcon.value, command);
    }
  }

  /** `ctx <= ctx` holds unless the user name is `MISSING`, and comparing two contexts is symmetric. */
  lemma LessEqReflexiveSymmetric(a: Context, b: Context)
    ensures !a.user.name.MissingV? ==> a.LessEq(AContext(a)) == Some(true)
    ensures a.LessEq(AContext(b)) == b.LessEq(AContext(a))
  {
    PyEqSymmetric(a.user.name, b.user.name);
  }

  /** A context built from an empty `auth`, as the hub builds every one, has no RCON client. */
  lemma EmptyAuthHasNoRcon(hasLoop: bool)
    ensures RconFor(DictV([]), hasLoop) == Ok(None)
  {
  }
}
