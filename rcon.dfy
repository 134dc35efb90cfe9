/**
 * The Source RCON protocol as the two RCON clients speak it
 * (`server/utils/mc_rcon.py` and the older `mc_rcon.py`). A packet is a
 * little-endian signed 32-bit size, then a 32-bit request id and a 32-bit
 * packet type, then the body and two NUL bytes (the body's terminator and
 * the empty string after it, "Basic Packet Structure" of the Source RCON
 * Protocol); the size counts everything after itself. Both clients write
 * request id 0.
 *
 * A reply is handed to `data_received` whole; stream fragmentation is not
 * modelled. Futures become table entries: `None` while pending, the
 * result once resolved.
 */
module Rcon {
  import opened Wrappers
  import opened Bytes
  import Utf8
  import PyStr
  import opened PyValues

  /** `RconPacketType` ("Packet Type" of the protocol). */
  datatype RconPacketType = CommandResponse | CommandExecute | Login

  function Code(t: RconPacketType): (c: int)
    ensures c == 0 || c == 2 || c == 3
  {
    match t
    case CommandResponse => 0
    case CommandExecute => 2
    case Login => 3
  }

  lemma CodesDistinct(a: RconPacketType, b: RconPacketType)
    ensures Code(a) == Code(b) <==> a == b
  {
  }

  /** `RconPacketData`: the id, the type and the decoded body of a reply. */
  datatype Packet = Packet(id: int, ptype: int, body: string)

  predicate IsInt32(v: int)
  {
    -TwoTo31 <= v < TwoTo31
  }

  /**
   * `struct.pack("<i", len(p)) + p` for `p = struct.pack("<ii", id, type) +
   * body.encode() + b"\x00\x00"`. A size that does not fit is a `struct.error`.
   */
  function Build(id: int, ptype: int, body: string): (r: Result<seq<Byte>, PyError>)
    requires IsInt32(id) && IsInt32(ptype)
    ensures r.Ok? <==> 10 + |Utf8.Encode(body)| < TwoTo31
    ensures r.Ok? ==> (|r.value| == 14 + |Utf8.Encode(body)|
                        && Int32LeValue(r.value[..4]) == 10 + |Utf8.Encode(body)|)
  {
    var payload := Int32Le(id) + Int32Le(ptype) + Utf8.Encode(body) + [0, 0];
    if |payload| < TwoTo31 then
      Int32RoundTrip(|payload|);
      assert (Int32Le(|payload|) + payload)[..4] == Int32Le(|payload|);
      Ok(Int32Le(|payload|) + payload)
    else Err(OtherError("struct.error"))
  }

  /** Python's `data[n:]`. */
  function Drop(data: seq<Byte>, n: nat): seq<Byte>
  {
    if n <= |data| then data[n..] else []
  }

  /**
   * `data_received` of `server/utils/mc_rcon.py`: the size is skipped, the
   * id and type are the next eight bytes (a `struct.error` when fewer
   * arrived), and the body is what lies between them and the last two
   * bytes. A wrong terminator or id -1 is only logged.
   */
  function ParseReply(data: seq<Byte>): (r: Result<Packet, PyError>)
    ensures |Drop(data, 4)| < 8 <==> r == Err(OtherError("struct.error"))
    ensures r.Ok? ==> IsInt32(r.value.id) && IsInt32(r.value.ptype)
    ensures r.Ok? && |Drop(data, 4)| <= 10 ==> r.value.body == ""
  {
    var d := Drop(data, 4);
    if |d| < 8 then Err(OtherError("struct.error"))
    else
      var body := if |d| >= 10 then d[8..|d| - 2] else [];
      match Utf8.Decode(body)
      case None => Err(UnicodeDecodeError)
      case Some(s) => Ok(Packet(Int32LeValue(d[..4]), Int32LeValue(d[4..8]), s))
  }

  /** A built packet splits back into its fields. */
  lemma BuildFields(id: int, ptype: int, body: string)
    requires IsInt32(id) && IsInt32(ptype) && Build(id, ptype, body).Ok?
    ensures var d := Drop(Build(id, ptype, body).value, 4);
      |d| == 10 + |Utf8.Encode(body)| && d[..4] == Int32Le(id) && d[4..8] == Int32Le(ptype)
      && d[8..|d| - 2] == Utf8.Encode(body) && d[|d| - 2..] == [0, 0]
  {
    var enc := Utf8.Encode(body);
    var payload := Int32Le(id) + Int32Le(ptype) + enc + [0, 0];
    var raw := Build(id, ptype, body).value;
    assert raw == Int32Le(|payload|) + payload;
    assert Drop(raw, 4) == payload;
  }

  /** Parsing what a client writes gives back its id, its type and its body. */
  lemma RoundTrip(id: int, t: RconPacketType, body: string)
    requires IsInt32(id) && Build(id, Code(t), body).Ok?
    ensures ParseReply(Build(id, Code(t), body).value) == Ok(Packet(id, Code(t), body))
  {
    BuildFields(id, Code(t), body);
    Int32RoundTrip(id);
    Int32RoundTrip(Code(t));
    Utf8.RoundTrip(body);
  }

  /**
   * `data_received` of `mc_rcon.py` as written: the body stops one byte
   * before the end, so it keeps the body's own NUL terminator.
   */
  function ParseReplyAsWritten(data: seq<Byte>): (r: Result<Packet, PyError>)
    ensures |Drop(data, 4)| < 8 <==> r == Err(OtherError("struct.error"))
    ensures r.Ok? ==> IsInt32(r.value.id) && IsInt32(r.value.ptype)
    ensures r.Ok? && |Drop(data, 4)| <= 9 ==> r.value.body == ""
  {
    var d := Drop(data, 4);
    if |d| < 8 then Err(OtherError("struct.error"))
    else
      var body := if |d| >= 9 then d[8..|d| - 1] else [];
      match Utf8.Decode(body)
      case None => Err(UnicodeDecodeError)
      case Some(s) => Ok(Packet(Int32LeValue(d[..4]), Int32LeValue(d[4..8]), s))
  }

  /** The UTF-8 of a text with one NUL after it reads back as that text and the NUL. */
  lemma DecodeWithNul(body: string)
    ensures Utf8.Decode(Utf8.Encode(body) + [0]) == Some(body + ['\0'])
  {
    Utf8.EncodeAppend(body, ['\0']);
    assert Utf8.Encode(['\0']) == [0];
    Utf8.RoundTrip(body + ['\0']);
  }

  /** With one byte cut instead of two, every well-formed packet reads back with a trailing NUL in its body. */
  lemma AsWrittenBodyKeepsNul(id: int, t: RconPacketType, body: string)
    requires IsInt32(id) && Build(id, Code(t), body).Ok?
    ensures ParseReplyAsWritten(Build(id, Code(t), body).value) == Ok(Packet(id, Code(t), body + ['\0']))
  {
    BuildFields(id, Code(t), body);
    var data := Build(id, Code(t), body).value;
    var d := Drop(data, 4);
    assert d[8..|d| - 1] == Utf8.Encode(body) + [0] by {
      assert d[8..|d| - 1] == d[8..|d| - 2] + [d[|d| - 2]];
    }
    Int32RoundTrip(id);
    Int32RoundTrip(Code(t));
    DecodeWithNul(body);
    AsWrittenFields(data, d, id, Code(t), body + ['\0']);
  }

  /** `ParseReplyAsWritten` on a payload of at least nine bytes whose fields are named. */
  lemma AsWrittenFields(data: seq<Byte>, d: seq<Byte>, id: int, ptype: int, s: string)
    requires d == Drop(data, 4) && |d| >= 9
    requires Int32LeValue(d[..4]) == id && Int32LeValue(d[4..8]) == ptype
    requires Utf8.Decode(d[8..|d| - 1]) == Some(s)
    ensures ParseReplyAsWritten(data) == Ok(Packet(id, ptype, s))
  {
  }

  /**
   * `self._transport.write(struct.pack("<i", len(p)) + p)`: Python looks
   * up `self._transport.write` before it evaluates the argument, so with no
   * transport yet (`_transport` is `None` until `connection_made`) the write
   * raises `AttributeError` whether or not the size would pack; only with a
   * transport does the `struct.error` of an oversized packet surface.
   */
  function Written(hasTransport: bool, packet: Result<seq<Byte>, PyError>): (r: Result<seq<Byte>, PyError>)
    ensures r.Ok? <==> hasTransport && packet.Ok?
    ensures r.Ok? ==> r == packet
    ensures !hasTransport ==> r == Err(AttributeError)
    ensures hasTransport && packet.Err? ==> r == packet
  {
    if !hasTransport then Err(AttributeError)
    else packet
  }

  // ----- the client of server/utils/mc_rcon.py -----

  datatype ConnectState = Connecting | Connected | Authenticated | Closed

  /** `RconClientProtocol` of `server/utils/mc_rcon.py`: one pending reply at a time. */
  class RconClientProtocol {
    var state: ConnectState
    /** The `_wait_read` future: `None` while pending. */
    var waitRead: Option<Packet>
    /** Whether `_transport` is set, which `connection_made` does. */
    var hasTransport: bool

    constructor ()
      ensures state == Connecting && waitRead.None? && !hasTransport
    {
      state := Connecting;
      waitRead := None;
      hasTransport := false;
    }

    predicate IsConnected()
      reads this
    {
      state == Connected || state == Authenticated
    }

    /** `connection_made` */
    method ConnectionMade()
      modifies this
      ensures state == Connected && waitRead == old(waitRead) && hasTransport
    {
      state := Connected;
      hasTransport := true;
    }

    /**
     * `close`: the transport is closed, then the state is CLOSED; before
     * `connection_made` there is no transport and `AttributeError` leaves
     * the state as it was.
     */
    method Close() returns (r: Result<(), PyError>)
      modifies this
      ensures r.Ok? <==> old(hasTransport)
      ensures r.Ok? ==> state == Closed
      ensures r.Err? ==> r.error == AttributeError && state == old(state)
      ensures waitRead == old(waitRead) && hasTransport == old(hasTransport)
    {
      if !hasTransport {
        return Err(AttributeError);
      }
      state := Closed;
      return Ok(());
    }

    /**
     * `data_received`: the parsed reply resolves the pending future; a
     * second reply before it was taken is an `InvalidStateError`.
     */
    method DataReceived(data: seq<Byte>) returns (r: Result<(), PyError>)
      modifies this
      ensures state == old(state)
      ensures ParseReply(data).Err? ==> r == Err(ParseReply(data).error) && waitRead == old(waitRead)
      ensures ParseReply(data).Ok? && old(waitRead).Some? ==>
        r == Err(OtherError("InvalidStateError")) && waitRead == old(waitRead)
      ensures ParseReply(data).Ok? && old(waitRead).None? ==> r.Ok? && waitRead == Some(ParseReply(data).value)
    {
      var p := ParseReply(data);
      if p.Err? {
        return Err(p.error);
      }
      if waitRead.Some? {
        return Err(OtherError("InvalidStateError"));
      }
      waitRead := Some(p.value);
      return Ok(());
    }

    /**
     * The write half of `_send`: the packet with request id 0, written
     * through the transport.
     */
    method Send(t: RconPacketType, data: string) returns (written: Result<seq<Byte>, PyError>)
      ensures written.Ok? <==> hasTransport && Build(0, Code(t), data).Ok?
      ensures written.Ok? ==> written == Build(0, Code(t), data)
      ensures hasTransport && Build(0, Code(t), data).Err? ==> written == Build(0, Code(t), data)
      ensures !hasTransport ==> written == Err(AttributeError)
    {
      written := Written(hasTransport, Build(0, Code(t), data));
    }

    /** The read half of `_send`: the awaited reply, and a fresh future in its place. */
    method TakeReply() returns (p: Packet)
      requires waitRead.Some?
      modifies this
      ensures p == old(waitRead).value && waitRead.None? && state == old(state)
    {
      p := waitRead.value;
      waitRead := None;
    }

    /**
     * `authenticate` once the login reply has arrived: the client is
     * authenticated exactly when the reply has type 2 and id 0; otherwise
     * `LoginError` and the state stays as it was.
     */
    method CompleteAuthenticate() returns (r: Result<(), PyError>)
      requires waitRead.Some?
      modifies this
      ensures var reply := old(waitRead).value;
        (r.Ok? <==> reply.ptype == 2 && reply.id == 0)
        && (r.Ok? ==> state == Authenticated)
        && (r.Err? ==> r.error == LoginError && state == old(state))
      ensures waitRead.None?
    {
      var reply := TakeReply();
      if reply.ptype == 2 && reply.id == 0 {
        state := Authenticated;
        return Ok(());
      }
      return Err(LoginError);
    }
  }

  /** The `port` argument of `RconClient`. */
  datatype PortArg = NoPort | IntPort(n: int) | StrPort(s: string)

  /** The host, port and password `RconClient.__init__` settles on. */
  datatype Settings = Settings(host: string, port: int, password: string)

  /** `RconClient.__init__`'s defaults: `"localhost"`, 25575, `""`; a `str` port goes through `int()`. */
  function ClientSettings(host: Option<string>, port: PortArg, password: Option<string>): (r: Result<Settings, PyError>)
    ensures r.Err? <==> port.StrPort? && PyStr.ParseInt(port.s).None?
    ensures r.Ok? ==> r.value.host == (if host.Some? then host.value else "localhost")
    ensures r.Ok? ==> r.value.password == (if password.Some? then password.value else "")
    ensures r.Ok? && port.NoPort? ==> r.value.port == 25575
    ensures r.Ok? && port.IntPort? ==> r.value.port == port.n
    ensures r.Ok? && port.StrPort? ==> Some(r.value.port) == PyStr.ParseInt(port.s)
  {
    var h := if host.Some? then host.value else "localhost";
    var pw := if password.Some? then password.value else "";
    match port
    case NoPort => Ok(Settings(h, 25575, pw))
    case IntPort(n) => Ok(Settings(h, n, pw))
    case StrPort(s) =>
      match PyStr.ParseInt(s)
      case None => Err(ValueError)
      case Some(n) => Ok(Settings(h, n, pw))
  }

  /** What `RconClient.connect` does. */
  datatype ConnectOutcome = AlreadyConnected | LoginSent(written: Result<seq<Byte>, PyError>)

  class RconClient {
    const settings: Settings
    const protocol: RconClientProtocol

    constructor (settings: Settings, protocol: RconClientProtocol)
      ensures this.settings == settings && this.protocol == protocol
    {
      this.settings := settings;
      this.protocol := protocol;
    }

    /**
     * `connect`: when the protocol is already connected it returns, or
     * raises with `exception`; otherwise `loop.create_connection` is
     * attempted, which raises `OSError` when the server cannot be reached
     * (`reachable` stands for its outcome) and else calls
     * `connection_made`, and the login packet with the password is written.
     */
    method Connect(exception: bool, reachable: bool) returns (r: Result<ConnectOutcome, PyError>)
      modifies protocol
      ensures old(protocol.IsConnected()) && exception ==>
        r == Err(OtherError("Exception")) && protocol.state == old(protocol.state)
      ensures old(protocol.IsConnected()) && !exception ==>
        r == Ok(AlreadyConnected) && protocol.state == old(protocol.state)
      ensures !old(protocol.IsConnected()) && !reachable ==>
        r == Err(OtherError("OSError")) && protocol.state == old(protocol.state)
        && protocol.hasTransport == old(protocol.hasTransport)
      ensures !old(protocol.IsConnected()) && reachable ==>
        r == Ok(LoginSent(Build(0, Code(Login), settings.password))) && protocol.state == Connected
        && protocol.hasTransport
      ensures old(protocol.IsConnected()) ==> protocol.hasTransport == old(protocol.hasTransport)
      ensures protocol.waitRead == old(protocol.waitRead)
    {
      if protocol.IsConnected() {
        if exception {
          return Err(OtherError("Exception"));
        }
        return Ok(AlreadyConnected);
      }
      if !reachable {
        return Err(OtherError("OSError"));
      }
      protocol.ConnectionMade();
      var written := protocol.Send(Login, settings.password);
      return Ok(LoginSent(written));
    }

    /**
     * `disconnect`: the protocol is closed, or `AttributeError` when it
     * never had a connection made.
     */
    method Disconnect() returns (r: Result<(), PyError>)
      modifies protocol
      ensures r.Ok? <==> old(protocol.hasTransport)
      ensures r.Ok? ==> protocol.state == Closed && !protocol.IsConnected()
      ensures r.Err? ==> r.error == AttributeError && protocol.state == old(protocol.state)
      ensures protocol.hasTransport == old(protocol.hasTransport) && protocol.waitRead == old(protocol.waitRead)
    {
      r := protocol.Close();
    }
  }

  // ----- the client of mc_rcon.py -----

  /**
   * Where a reply is delivered: a type-2 packet (the login reply) to the
   * waiter under `None`, any other to the waiter under its id.
   */
  function RouteKey(p: Packet): Option<int>
  {
    if p.ptype == 2 then None else Some(p.id)
  }

  /**
   * The packet `execute` writes as the file has it: request id 0 whatever
   * `_id` has become.
   */
  function ExecutePacketAsWritten(counter: int, command: string): (r: Result<seq<Byte>, PyError>)
    ensures r.Ok? ==> ParseReply(r.value) == Ok(Packet(0, Code(CommandExecute), command))
  {
    var r := Build(0, Code(CommandExecute), command);
    if r.Ok? then RoundTrip(0, CommandExecute, command); r else r
  }

  /**
   * A server answers a command with a response packet that echoes the
   * request id. With id 0 on the wire, the answer to every `execute`
   * after the first (whose waiter is under `_id` = 1, 2, ...) is routed to
   * key 0 and never reaches its waiter.
   */
  lemma AsWrittenLaterRepliesMissTheirWaiter(counter: int, command: string, output: string)
    requires counter >= 1 && ExecutePacketAsWritten(counter, command).Ok? && Build(0, 0, output).Ok?
    ensures var request := ParseReply(ExecutePacketAsWritten(counter, command).value);
      request.Ok? && request.value.id == 0
      && var reply := ParseReply(Build(request.value.id, Code(CommandResponse), output).value);
      reply.Ok? && RouteKey(reply.value) != Some(counter)
  {
    RoundTrip(0, CommandExecute, command);
    RoundTrip(0, CommandResponse, output);
  }

  /** The packet `execute` writes with the fix: the request id is the `_id` the waiter is under. */
  function ExecutePacket(counter: int, command: string): (r: Result<seq<Byte>, PyError>)
    requires IsInt32(counter)
    ensures r.Ok? ==> ParseReply(r.value) == Ok(Packet(counter, Code(CommandExecute), command))
  {
    var r := Build(counter, Code(CommandExecute), command);
    if r.Ok? then RoundTrip(counter, CommandExecute, command); r else r
  }

  /** With the request id on the wire, a reply that echoes it reaches the waiter of its `execute`. */
  lemma RepliesReachTheirWaiter(counter: int, command: string, output: string)
    requires IsInt32(counter) && ExecutePacket(counter, command).Ok? && Build(counter, 0, output).Ok?
    ensures var request := ParseReply(ExecutePacket(counter, command).value);
      request.Ok? && request.value.id == counter
      && var reply := ParseReply(Build(request.value.id, Code(CommandResponse), output).value);
      reply.Ok? && RouteKey(reply.value) == Some(counter) && reply.value.body == output
  {
    RoundTrip(counter, CommandExecute, command);
    RoundTrip(counter, CommandResponse, output);
  }

  /** `RconClientProtocol` of `mc_rcon.py`: a request counter and waiters keyed by request id or `None`. */
  class RconRootProtocol {
    const password: string
    var state: ConnectState
    var id: int
    /** `_waiters`: each future's result once resolved. */
    var waiters: map<Option<int>, Option<string>>
    /** Whether `_transport` is set, which `connection_made` does. */
    var hasTransport: bool

    constructor (password: string)
      ensures this.password == password && state == Connecting && id == -1 && waiters == map[]
      ensures !hasTransport
    {
      this.password := password;
      state := Connecting;
      id := -1;
      waiters := map[];
      hasTransport := false;
    }

    /** `connection_made` */
    method ConnectionMade()
      modifies this
      ensures state == Connected && id == old(id) && waiters == old(waiters) && hasTransport
    {
      state := Connected;
      hasTransport := true;
    }

    /** The first half of `_wait_receive`: a fresh future under `key`, replacing any earlier one. */
    method InstallWaiter(key: Option<int>)
      modifies this
      ensures waiters == old(waiters)[key := None] && state == old(state) && id == old(id)
      ensures hasTransport == old(hasTransport)
    {
      waiters := waiters[key := None];
    }

    /**
     * The second half of `_wait_receive`: once the future is resolved its
     * entry is deleted. The result is dropped, since `_wait_receive` has
     * no `return`: `authenticate` and `execute` receive `None`.
     */
    method FinishWait(key: Option<int>)
      requires key in waiters && waiters[key].Some?
      modifies this
      ensures waiters == old(waiters) - {key} && state == old(state) && id == old(id)
      ensures hasTransport == old(hasTransport)
    {
      waiters := waiters - {key};
    }

    /**
     * `data_received`: the reply, its body cut before both NULs as
     * `ParseReply` does (see `ParseReplyAsWritten` for the file's one-byte
     * cut), resolves the waiter its `RouteKey` selects, if there is one;
     * with none it is dropped. Resolving an already resolved future is an
     * `InvalidStateError`.
     */
    method DataReceived(data: seq<Byte>) returns (r: Result<(), PyError>)
      modifies this
      ensures state == old(state) && id == old(id) && hasTransport == old(hasTransport)
      ensures ParseReply(data).Err? ==> r == Err(ParseReply(data).error) && waiters == old(waiters)
      ensures ParseReply(data).Ok? ==> var key := RouteKey(ParseReply(data).value);
        && (key !in old(waiters) ==> r.Ok? && waiters == old(waiters))
        && (key in old(waiters) && old(waiters)[key].Some? ==>
              r == Err(OtherError("InvalidStateError")) && waiters == old(waiters))
        && (key in old(waiters) && old(waiters)[key].None? ==>
              r.Ok? && waiters == old(waiters)[key := Some(ParseReply(data).value.body)])
    {
      var p := ParseReply(data);
      if p.Err? {
        return Err(p.error);
      }
      var key := RouteKey(p.value);
      if key !in waiters {
        return Ok(());
      }
      if waiters[key].Some? {
        return Err(OtherError("InvalidStateError"));
      }
      waiters := waiters[key := Some(p.value.body)];
      return Ok(());
    }

    /**
     * `authenticate` up to the wait: the login packet is written and a
     * waiter installed under `None`; a failed write raises before any
     * waiter is installed.
     */
    method Authenticate() returns (written: Result<seq<Byte>, PyError>)
      modifies this
      ensures written == Written(old(hasTransport), Build(0, Code(Login), password))
      ensures written.Ok? ==> waiters == old(waiters)[None := None]
      ensures written.Err? ==> waiters == old(waiters)
      ensures state == old(state) && id == old(id) && hasTransport == old(hasTransport)
    {
      written := Written(hasTransport, Build(0, Code(Login), password));
      if written.Ok? {
        InstallWaiter(None);
      }
    }

    /**
     * `execute` up to the wait: `_id` goes up by one, and the command is
     * written with that request id (see `ExecutePacketAsWritten` for the
     * file's id 0) and a waiter installed under it; a failed write raises
     * with `_id` already raised and no waiter installed.
     */
    method Execute(command: string) returns (written: Result<seq<Byte>, PyError>)
      requires IsInt32(id + 1)
      modifies this
      ensures id == old(id) + 1
      ensures written == Written(old(hasTransport), ExecutePacket(id, command))
      ensures written.Ok? ==> waiters == old(waiters)[Some(id) := None]
      ensures written.Err? ==> waiters == old(waiters)
      ensures state == old(state) && hasTransport == old(hasTransport)
    {
      id := id + 1;
      written := Written(hasTransport, ExecutePacket(id, command));
      if written.Ok? {
        InstallWaiter(Some(id));
      }
    }
  }
}
