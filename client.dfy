/**
 * The client's connection status machine (`chatbridgee/core/client.py`):
 * `start` and `stop` guarded by the running check, the status the socket
 * callbacks set before dispatching, and the payload `call` sends, shaped by
 * the per-event structure table.
 */
module Client {
  import opened Wrappers
  import opened PyValues
  import opened EventRegistry

  datatype ClientStatus = Connecting | Connected | Online | Disconnected | Stopped

  /** An `events_structure` entry: a stored `None`, the `-1` marker, or a callable shaping the data. */
  datatype Structure = NoneStructure | MinusOne | Shaper(shape: Value -> Value)

  /** `PayloadStructure(event_name, data, receivers)` */
  datatype Payload = Payload(eventName: string, data: Value, receivers: seq<string>)

  /**
   * The payload of `call(event, data, receivers=...)`: the data is shaped by
   * the event's structure unless there is none, it is `None`, or it is `-1`;
   * missing receivers become `[]`.
   */
  function PayloadOf(structures: map<string, Structure>, event: string, data: Value, receivers: Option<seq<string>>): (p: Payload)
    ensures p.eventName == event
    ensures p.receivers == (if receivers.None? then [] else receivers.value)
  {
    var s := if event in structures then structures[event] else NoneStructure;
    Payload(event, if s.Shaper? then s.shape(data) else data, if receivers.None? then [] else receivers.value)
  }

  /** Data passes through unchanged without a shaping structure, and is shaped by one. */
  lemma PayloadData(structures: map<string, Structure>, event: string, data: Value, receivers: Option<seq<string>>)
    ensures event !in structures ==> PayloadOf(structures, event, data, receivers).data == data
    ensures event in structures && !structures[event].Shaper? ==> PayloadOf(structures, event, data, receivers).data == data
    ensures event in structures && structures[event].Shaper? ==>
      PayloadOf(structures, event, data, receivers).data == structures[event].shape(data)
  {
  }

  /** After `add_event_structure(e, f)` the payload of `e` is `f(data)`; other events are unaffected. */
  lemma AddedStructureShapes(structures: map<string, Structure>, e: string, f: Value -> Value, other: string,
                             data: Value, receivers: Option<seq<string>>)
    requires other != e
    ensures PayloadOf(structures[e := Shaper(f)], e, data, receivers).data == f(data)
    ensures PayloadOf(structures[e := Shaper(f)], other, data, receivers) == PayloadOf(structures, other, data, receivers)
  {
  }

  /**
   * `__disconnect` tests `not self.is_running`: the bound method, which is
   * always truthy, so the early return is never taken.
   */
  lemma DisconnectGuardNeverTaken()
    ensures Truthy(ObjectV("method", "is_running"))
  {
  }

  /** `BaseClient`. `events` is its `Events` part; `history` records every `_set_status`, in order. */
  class BaseClient {
    const name: string
    const events: Events
    var status: ClientStatus
    var history: seq<ClientStatus>
    var structures: map<string, Structure>
    var url: string

    /** A new client is stopped, with the default server URL and no structures. */
    constructor (name: string, events: Events)
      ensures this.name == name && this.events == events
      ensures status == Stopped && history == [] && structures == map[]
      ensures url == "http://localhost:6000"
    {
      this.name := name;
      this.events := events;
      status := Stopped;
      history := [];
      structures := map[];
      url := "http://localhost:6000";
    }

    predicate IsOnline() reads this { status == Online }
    predicate IsConnecting() reads this { status == Connecting }
    predicate IsConnected() reads this { status == Connected || IsOnline() }
    predicate IsDisconnected() reads this { status == Disconnected }
    predicate IsStopped() reads this { status == Stopped }
    predicate IsRunning() reads this { !IsStopped() }

    /** A connected client is running, a stopped one neither connected nor connecting, and only `Stopped` is not running. */
    lemma StatusPredicates()
      ensures IsConnected() ==> IsRunning()
      ensures IsStopped() ==> !IsConnected() && !IsConnecting() && !IsDisconnected()
      ensures IsRunning() <==> IsConnecting() || IsConnected() || IsDisconnected()
    {
    }

    /** `get_structure(event)`: `None` for an unknown event. */
    function GetStructure(event: string): (r: Option<Structure>)
      reads this
      ensures r.None? <==> event !in structures
      ensures r.Some? ==> r.value == structures[event]
    {
      if event in structures then Some(structures[event]) else None
    }

    method AddEventStructure(event: string, s: Structure)
      modifies this
      ensures structures == old(structures)[event := s]
      ensures status == old(status) && history == old(history) && url == old(url)
    {
      structures := structures[event := s];
    }

    method SetEventStructure(table: map<string, Structure>)
      modifies this
      ensures structures == table
      ensures status == old(status) && history == old(history) && url == old(url)
    {
      structures := table;
    }

    /** The payload `call` hands to the socket. */
    function CallPayload(event: string, data: Value, receivers: Option<seq<string>>): (p: Payload)
      reads this
      ensures p == PayloadOf(structures, event, data, receivers)
    {
      PayloadOf(structures, event, data, receivers)
    }

    method SetStatus(s: ClientStatus)
      modifies this
      ensures status == s && history == old(history) + [s]
      ensures structures == old(structures) && url == old(url)
    {
      status := s;
      history := history + [s];
    }

    /** `start`: refused while running; otherwise the status becomes `Connecting` before the socket connects. */
    method Start()
      modifies this
      ensures structures == old(structures) && url == old(url)
      ensures old(IsRunning()) ==> status == old(status) && history == old(history)
      ensures !old(IsRunning()) ==> status == Connecting && history == old(history) + [Connecting]
    {
      if IsRunning() {
        return;
      }
      SetStatus(Connecting);
    }

    /** `__disconnect`: the socket disconnects and the status becomes `Disconnected`; the guard never returns early. */
    method Disconnect()
      modifies this
      ensures status == Disconnected && history == old(history) + [Disconnected]
      ensures structures == old(structures) && url == old(url)
    {
      DisconnectGuardNeverTaken();
      if !Truthy(ObjectV("method", "is_running")) {
        return;
      }
      SetStatus(Disconnected);
    }

    /** `stop`: refused while not running; otherwise disconnects, then ends `Stopped`. */
    method Stop()
      modifies this
      ensures structures == old(structures) && url == old(url)
      ensures !old(IsRunning()) ==> status == old(status) && history == old(history)
      ensures old(IsRunning()) ==> status == Stopped && history == old(history) + [Disconnected, Stopped]
    {
      if !IsRunning() {
        return;
      }
      Disconnect();
      SetStatus(Stopped);
    }

    /** The `connect` socket callback: `Connected`, then the `connect` listeners. */
    method OnConnect(args: seq<Arg>, raises: Call -> Option<PyError>, depth: nat) returns (r: Result<(), PyError>)
      modifies this, events
      ensures status == Connected && history == old(history) + [Connected]
      ensures events.extraEvents == old(events.extraEvents)
      ensures events.calls == old(events.calls) + EventRun(events.extraEvents, events.slots.cls, "connect", args, raises, depth).calls
      ensures r.Err? <==> EventRun(events.extraEvents, events.slots.cls, "connect", args, raises, depth).overflow
      ensures r.Err? ==> r.error == RecursionError
    {
      SetStatus(Connected);
      r := events.Dispatch("connect", args, raises, depth);
    }

    /** The `disconnect` socket callback: `Disconnected`, then the `disconnect` listeners. */
    method OnDisconnect(args: seq<Arg>, raises: Call -> Option<PyError>, depth: nat) returns (r: Result<(), PyError>)
      modifies this, events
      ensures status == Disconnected && history == old(history) + [Disconnected]
      ensures events.extraEvents == old(events.extraEvents)
      ensures events.calls == old(events.calls) + EventRun(events.extraEvents, events.slots.cls, "disconnect", args, raises, depth).calls
      ensures r.Err? <==> EventRun(events.extraEvents, events.slots.cls, "disconnect", args, raises, depth).overflow
      ensures r.Err? ==> r.error == RecursionError
    {
      SetStatus(Disconnected);
      r := events.Dispatch("disconnect", args, raises, depth);
    }

    /** The `connect_error` socket callback: `stop`, then the `connect_error` listeners. */
    method OnConnectError(args: seq<Arg>, raises: Call -> Option<PyError>, depth: nat) returns (r: Result<(), PyError>)
      modifies this, events
      ensures !old(IsRunning()) ==> status == old(status) && history == old(history)
      ensures old(IsRunning()) ==> status == Stopped && history == old(history) + [Disconnected, Stopped]
      ensures events.extraEvents == old(events.extraEvents)
      ensures events.calls == old(events.calls) + EventRun(events.extraEvents, events.slots.cls, "connect_error", args, raises, depth).calls
      ensures r.Err? <==> EventRun(events.extraEvents, events.slots.cls, "connect_error", args, raises, depth).overflow
      ensures r.Err? ==> r.error == RecursionError
    {
      Stop();
      r := events.Dispatch("connect_error", args, raises, depth);
    }
  }
}
