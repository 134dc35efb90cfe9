/**
 * The framed, encrypted transport of the relay server
 * (`server/utils/chat_bridge.py`) and of the old client package
 * (`chatbridge/utils/chat_bridge.py`): a frame is a 4-byte `struct` `"I"`
 * length of the ciphertext followed by the ciphertext, and a frame is read
 * back as a header read and then reads of at most 1024 bytes until the
 * declared length has arrived.
 *
 * The cipher and JSON are parameters (`encrypt`, `decrypt`, `loads`). The
 * peer is a sequence of non-empty segments, each the bytes one `recv` can
 * deliver at most; after the last one the peer has closed and every `recv`
 * returns nothing.
 */
module Transport {
  import opened Wrappers
  import opened Bytes
  import Utf8
  import opened PyValues

  const ReceiveBufferSize: nat := 1024

  // ----- the peer -----

  function Flatten(segs: seq<seq<Byte>>): seq<Byte>
  {
    if segs == [] then [] else segs[0] + Flatten(segs[1..])
  }

  /** No segment is empty: an empty `recv` means the peer closed. */
  predicate Segmented(segs: seq<seq<Byte>>)
  {
    forall i :: 0 <= i < |segs| ==> segs[i] != []
  }

  /** The bytes one `sock_recv(n)` returns: at most `n` from the next segment. */
  function RecvData(segs: seq<seq<Byte>>, n: nat): (r: seq<Byte>)
    ensures |r| <= n
  {
    if segs == [] then [] else if n < |segs[0]| then segs[0][..n] else segs[0]
  }

  /** What the peer has left to deliver after `sock_recv(n)`. */
  function RecvRest(segs: seq<seq<Byte>>, n: nat): seq<seq<Byte>>
  {
    if segs == [] then [] else if n < |segs[0]| then [segs[0][n..]] + segs[1..] else segs[1..]
  }

  /** A read takes a prefix of the stream and leaves the rest; only a closed peer gives nothing to a positive request. */
  lemma RecvSplits(segs: seq<seq<Byte>>, n: nat)
    requires Segmented(segs)
    ensures RecvData(segs, n) + Flatten(RecvRest(segs, n)) == Flatten(segs)
    ensures Segmented(RecvRest(segs, n))
    ensures n > 0 ==> (RecvData(segs, n) == [] <==> segs == [])
  {
    RecvKeepsBytes(segs, n);
    RecvKeepsSegmented(segs, n);
  }

  /** The bytes read and the bytes left make up the stream. */
  lemma RecvKeepsBytes(segs: seq<seq<Byte>>, n: nat)
    ensures RecvData(segs, n) + Flatten(RecvRest(segs, n)) == Flatten(segs)
  {
    if segs != [] && n < |segs[0]| {
      var head := segs[0];
      var tail := Flatten(segs[1..]);
      var rest := RecvRest(segs, n);
      assert rest[0] == head[n..] && rest[1..] == segs[1..];
      assert Flatten(rest) == head[n..] + tail;
      assert head[..n] + (head[n..] + tail) == (head[..n] + head[n..]) + tail;
      assert head[..n] + head[n..] == head;
    }
  }

  /** What is left after a read has no empty segment. */
  lemma RecvKeepsSegmented(segs: seq<seq<Byte>>, n: nat)
    requires Segmented(segs)
    ensures Segmented(RecvRest(segs, n))
  {
    var rest := RecvRest(segs, n);
    if segs != [] && n < |segs[0]| {
      forall i | 0 <= i < |rest| ensures rest[i] != [] {
        if i > 0 {
          assert rest[i] == segs[i];
        }
      }
    } else if segs != [] {
      forall i | 0 <= i < |rest| ensures rest[i] != [] {
        assert rest[i] == segs[i + 1];
      }
    }
  }

  /** The connected socket, as the peer will feed it. */
  class Socket {
    var segments: seq<seq<Byte>>
    /** The sizes passed to `sock_recv`, in order. */
    ghost var requests: seq<nat>

    ghost predicate Valid()
      reads this
    {
      Segmented(segments)
    }

    constructor (segs: seq<seq<Byte>>)
      requires Segmented(segs)
      ensures Valid() && segments == segs && requests == []
    {
      segments := segs;
      requests := [];
    }

    /** The bytes still to come. */
    function Pending(): seq<Byte>
      reads this
    {
      Flatten(segments)
    }

    /** `loop.sock_recv(sock, n)` */
    method Recv(n: nat) returns (r: seq<Byte>)
      requires Valid()
      modifies this
      ensures Valid() && segments == RecvRest(old(segments), n) && requests == old(requests) + [n]
      ensures r == RecvData(old(segments), n)
      ensures r + Pending() == old(Pending())
      ensures n > 0 ==> (r == [] <==> old(segments) == [])
    {
      RecvSplits(segments, n);
      r := RecvData(segments, n);
      segments := RecvRest(segments, n);
      requests := requests + [n];
    }
  }

  // ----- sending -----

  /** What `send` is handed: text, or bytes. */
  datatype Payload = Text(s: string) | Raw(b: seq<Byte>)

  /** `struct.pack("I", len(ct)) + ct`; a length that does not fit 32 bits is a `struct.error`. */
  function Frame(ct: seq<Byte>, order: ByteOrder): (r: Result<seq<Byte>, PyError>)
    ensures r.Ok? <==> |ct| < TwoTo32
    ensures r.Ok? ==> (|r.value| == 4 + |ct| && r.value[4..] == ct
                        && UInt32Value(r.value[..4], order) == |ct|)
  {
    if |ct| < TwoTo32 then
      UInt32RoundTrip(|ct|, order);
      var head := UInt32(|ct|, order);
      assert (head + ct)[..4] == head && (head + ct)[4..] == ct;
      Ok(head + ct)
    else Err(OtherError("struct.error"))
  }

  /** The relay server's `send`: bytes are first decoded as UTF-8 text, and the text is encrypted. */
  function ServerSend(data: Payload, encrypt: string -> seq<Byte>, order: ByteOrder): (r: Result<seq<Byte>, PyError>)
    ensures data.Raw? && Utf8.Decode(data.b).None? ==> r == Err(UnicodeDecodeError)
    ensures r.Ok? ==> |r.value| >= 4 && UInt32Value(r.value[..4], order) == |r.value| - 4
    ensures r.Ok? && data.Text? ==> r.value[4..] == encrypt(data.s)
    ensures r.Ok? && data.Raw? ==> r.value[4..] == encrypt(Utf8.Decode(data.b).value)
  {
    var text := if data.Text? then Some(data.s) else Utf8.Decode(data.b);
    if text.None? then Err(UnicodeDecodeError) else Frame(encrypt(text.value), order)
  }

  /** The old client's `send`: text is first encoded as UTF-8, and the bytes are encrypted. */
  function ClientSend(data: Payload, encrypt: seq<Byte> -> seq<Byte>, order: ByteOrder): (r: Result<seq<Byte>, PyError>)
    ensures r.Ok? ==> |r.value| >= 4 && UInt32Value(r.value[..4], order) == |r.value| - 4
    ensures r.Ok? && data.Text? ==> r.value[4..] == encrypt(Utf8.Encode(data.s))
    ensures r.Ok? && data.Raw? ==> r.value[4..] == encrypt(data.b)
  {
    var bytes := if data.Text? then Utf8.Encode(data.s) else data.b;
    Frame(encrypt(bytes), order)
  }

  /** The server sends the UTF-8 bytes of a text exactly as it sends the text. */
  lemma ServerSendBytesAsText(s: string, encrypt: string -> seq<Byte>, order: ByteOrder)
    ensures ServerSend(Raw(Utf8.Encode(s)), encrypt, order) == ServerSend(Text(s), encrypt, order)
  {
    Utf8.RoundTrip(s);
  }

  /** The server refuses bytes that are not UTF-8 before anything is encrypted. */
  lemma ServerSendRejectsBadUtf8(b: seq<Byte>, encrypt: string -> seq<Byte>, order: ByteOrder)
    requires Utf8.Decode(b).None?
    ensures ServerSend(Raw(b), encrypt, order) == Err(UnicodeDecodeError)
  {
  }

  // ----- receiving -----

  /** How reading one frame ends. */
  datatype FrameRead =
    /** The header read returned nothing: the peer closed. */
    | NoHeader
    /** The header read returned 1 to 3 bytes. */
    | ShortHeader
    /** The peer closed before the declared number of body bytes arrived. */
    | Truncated
    | Body(ct: seq<Byte>)

  /** The header read and the body it announces, on the stream left after the header. */
  function FrameSpec(segs: seq<seq<Byte>>, order: ByteOrder): FrameRead
  {
    var header := RecvData(segs, 4);
    if header == [] then NoHeader
    else if |header| < 4 then ShortHeader
    else
      var length := UInt32Value(header, order);
      var rest := Flatten(RecvRest(segs, 4));
      if length <= |rest| then Body(rest[..length]) else Truncated
  }

  /** The stream left once `FrameSpec` has read a frame. */
  function AfterFrame(segs: seq<seq<Byte>>, order: ByteOrder): seq<Byte>
    requires FrameSpec(segs, order).Body?
  {
    var length := UInt32Value(RecvData(segs, 4), order);
    var rest := Flatten(RecvRest(segs, 4));
    rest[length..]
  }

  /**
   * The body loop with the end of stream handled: it asks for
   * `min(remaining, 1024)` bytes at a time, and an empty read, which
   * means the peer closed, ends it with `EmptyContent`.
   */
  method ReadBody(sock: Socket, length: nat) returns (r: Result<seq<Byte>, PyError>)
    requires sock.Valid()
    modifies sock
    ensures sock.Valid()
    ensures length <= |old(sock.Pending())| ==>
      r == Ok(old(sock.Pending())[..length]) && sock.Pending() == old(sock.Pending())[length..]
    ensures length > |old(sock.Pending())| ==> r == Err(EmptyContent) && sock.Pending() == []
    ensures |sock.requests| >= |old(sock.requests)|
    ensures forall j :: |old(sock.requests)| <= j < |sock.requests| ==> 0 < sock.requests[j] <= ReceiveBufferSize
  {
    ghost var start := sock.Pending();
    var data: seq<Byte> := [];
    var remaining: nat := length;
    while remaining > 0
      invariant sock.Valid()
      invariant |data| + remaining == length
      invariant data + sock.Pending() == start
      invariant |sock.requests| >= |old(sock.requests)|
      invariant forall j :: |old(sock.requests)| <= j < |sock.requests| ==> 0 < sock.requests[j] <= ReceiveBufferSize
      decreases remaining
    {
      var n := if remaining < ReceiveBufferSize then remaining else ReceiveBufferSize;
      ghost var before := sock.Pending();
      var buf := sock.Recv(n);
      if buf == [] {
        assert sock.Pending() == [] && |start| == |data| < length;
        return Err(EmptyContent);
      }
      assert (data + buf) + sock.Pending() == data + before;
      data := data + buf;
      remaining := remaining - |buf|;
    }
    assert |data| == length;
    SplitAt(data, sock.Pending(), start);
    return Ok(data);
  }

  /** One frame: the header read, then the body loop. */
  method ReadFrame(sock: Socket, order: ByteOrder) returns (f: FrameRead)
    requires sock.Valid()
    modifies sock
    ensures sock.Valid()
    ensures f == FrameSpec(old(sock.segments), order)
    ensures f.Body? ==> sock.Pending() == AfterFrame(old(sock.segments), order)
  {
    var header := sock.Recv(4);
    if header == [] {
      return NoHeader;
    }
    if |header| < 4 {
      return ShortHeader;
    }
    var length := UInt32Value(header, order);
    var body := ReadBody(sock, length);
    if body.Err? {
      return Truncated;
    }
    return Body(body.value);
  }

  /** What the relay server's `receive_data` returns when it returns: `False` or a message. */
  datatype Received = Closed | Message(v: Value)

  /** The relay server's decoding of a frame: closed peer, error, or the JSON or raw text. */
  function ServerReceiveSpec(segs: seq<seq<Byte>>, order: ByteOrder,
                             decrypt: seq<Byte> -> string, loads: string -> Option<Value>): (r: Result<Received, PyError>)
    ensures r.Err? <==> FrameSpec(segs, order).ShortHeader? || FrameSpec(segs, order).Truncated?
    ensures r.Err? ==> r.error == EmptyContent
    ensures r == Ok(Closed) <==> FrameSpec(segs, order).NoHeader?
    ensures r.Ok? && r.value.Message? ==> FrameSpec(segs, order).Body?
  {
    match FrameSpec(segs, order)
    case NoHeader => Ok(Closed)
    case ShortHeader => Err(EmptyContent)
    case Truncated => Err(EmptyContent)
    case Body(ct) =>
      var text := decrypt(ct);
      match loads(text)
      case Some(v) => Ok(Message(v))
      case None => Ok(Message(StrV(text)))
  }

  /** The relay server's `receive_data`. */
  method ServerReceive(sock: Socket, order: ByteOrder, decrypt: seq<Byte> -> string, loads: string -> Option<Value>)
    returns (r: Result<Received, PyError>)
    requires sock.Valid()
    modifies sock
    ensures sock.Valid()
    ensures r == ServerReceiveSpec(old(sock.segments), order, decrypt, loads)
  {
    var f := ReadFrame(sock, order);
    match f
    case NoHeader => return Ok(Closed);
    case ShortHeader => return Err(EmptyContent);
    case Truncated => return Err(EmptyContent);
    case Body(ct) =>
      var text := decrypt(ct);
      var parsed := loads(text);
      if parsed.Some? {
        return Ok(Message(parsed.value));
      }
      return Ok(Message(StrV(text)));
  }

  /** The old client's decoding of a frame: any header shorter than 4 bytes is an error, and the text is not parsed. */
  function ClientReceiveSpec(segs: seq<seq<Byte>>, order: ByteOrder, decrypt: seq<Byte> -> string): Result<string, PyError>
  {
    match FrameSpec(segs, order)
    case Body(ct) => Ok(decrypt(ct))
    case _ => Err(EmptyContent)
  }

  /** The old client's `receive_data`. */
  method ClientReceive(sock: Socket, order: ByteOrder, decrypt: seq<Byte> -> string) returns (r: Result<string, PyError>)
    requires sock.Valid()
    modifies sock
    ensures sock.Valid()
    ensures r == ClientReceiveSpec(old(sock.segments), order, decrypt)
  {
    var f := ReadFrame(sock, order);
    if f.Body? {
      return Ok(decrypt(f.ct));
    }
    return Err(EmptyContent);
  }

  /** Two ways of cutting the same sequence agree on the first piece when it has the same length. */
  lemma SplitAt(a: seq<Byte>, b: seq<Byte>, c: seq<Byte>)
    requires a + b == c
    ensures c[..|a|] == a && c[|a|..] == b
  {
  }

  /**
   * A frame read back from a stream that starts with it gives its
   * ciphertext whatever the segmentation, as long as the header arrives
   * in one read, and leaves what followed it.
   */
  lemma FrameRoundTrip(segs: seq<seq<Byte>>, ct: seq<Byte>, after: seq<Byte>, order: ByteOrder)
    requires Segmented(segs) && segs != [] && |segs[0]| >= 4
    requires Frame(ct, order).Ok? && Flatten(segs) == Frame(ct, order).value + after
    ensures FrameSpec(segs, order) == Body(ct)
    ensures AfterFrame(segs, order) == after
  {
    var frame := Frame(ct, order).value;
    RecvSplits(segs, 4);
    var header := RecvData(segs, 4);
    var rest := Flatten(RecvRest(segs, 4));
    assert |header| == 4;
    FrameParts(header, rest, frame, ct, after);
    SplitAt(ct, after, rest);
  }

  /** A stream that starts with a frame, split after four bytes: the header, then the ciphertext and what followed. */
  lemma FrameParts(header: seq<Byte>, rest: seq<Byte>, frame: seq<Byte>, ct: seq<Byte>, after: seq<Byte>)
    requires |header| == 4 && |frame| == 4 + |ct| && frame[4..] == ct
    requires header + rest == frame + after
    ensures header == frame[..4] && rest == ct + after
  {
    var stream := frame + after;
    SplitAt(header, rest, stream);
    assert stream[4..] == frame[4..] + after;
  }

  /** A text the relay server sends reads back, on a relay server with the inverse cipher, as that text when it is not JSON. */
  lemma ServerToServer(s: string, encrypt: string -> seq<Byte>, decrypt: seq<Byte> -> string,
                       loads: string -> Option<Value>, order: ByteOrder)
    requires decrypt(encrypt(s)) == s && loads(s).None?
    requires ServerSend(Text(s), encrypt, order).Ok?
    ensures var frame := ServerSend(Text(s), encrypt, order).value;
      ServerReceiveSpec([frame], order, decrypt, loads) == Ok(Message(StrV(s)))
  {
    var frame := ServerSend(Text(s), encrypt, order).value;
    assert Flatten([frame]) == frame + [] by {
      assert Flatten([frame]) == frame + Flatten([]);
    }
    FrameRoundTrip([frame], encrypt(s), [], order);
  }

  // ----- the unguarded body loop -----

  /**
   * The body loop as both files write it: an empty read subtracts nothing
   * from `remaining` and the loop goes round again. `None` means the loop
   * has not finished within `fuel` reads.
   */
  function BodyLoopAsWritten(segs: seq<seq<Byte>>, remaining: nat, fuel: nat): Option<seq<Byte>>
    decreases fuel
  {
    if remaining == 0 then Some([])
    else if fuel == 0 then None
    else
      var n := if remaining < ReceiveBufferSize then remaining else ReceiveBufferSize;
      var buf := RecvData(segs, n);
      match BodyLoopAsWritten(RecvRest(segs, n), remaining - |buf|, fuel - 1)
      case None => None
      case Some(more) => Some(buf + more)
  }

  /** When the peer closes before the whole body arrived, the loop never finishes, however many reads it is given. */
  lemma {:induction false} TruncatedBodyNeverFinishes(segs: seq<seq<Byte>>, remaining: nat, fuel: nat)
    requires Segmented(segs) && |Flatten(segs)| < remaining
    ensures BodyLoopAsWritten(segs, remaining, fuel) == None
    decreases fuel
  {
    if fuel > 0 {
      var n := if remaining < ReceiveBufferSize then remaining else ReceiveBufferSize;
      RecvSplits(segs, n);
      var buf := RecvData(segs, n);
      TruncatedBodyNeverFinishes(RecvRest(segs, n), remaining - |buf|, fuel - 1);
    }
  }

  /** With the whole body available the unguarded loop does finish within `remaining` reads, with the same bytes as `ReadBody`. */
  lemma {:induction false} CompleteBodyFinishes(segs: seq<seq<Byte>>, remaining: nat)
    requires Segmented(segs) && remaining <= |Flatten(segs)|
    ensures BodyLoopAsWritten(segs, remaining, remaining) == Some(Flatten(segs)[..remaining])
    decreases remaining
  {
    if remaining > 0 {
      var n := if remaining < ReceiveBufferSize then remaining else ReceiveBufferSize;
      RecvSplits(segs, n);
      var buf := RecvData(segs, n);
      var rest := RecvRest(segs, n);
      assert buf != [];
      CompleteBodyFinishes(rest, remaining - |buf|);
      FuelMonotone(rest, remaining - |buf|, remaining - |buf|, remaining - 1);
      var more := Flatten(rest)[..remaining - |buf|];
      BodyLoopStep(segs, remaining, remaining, n, buf, rest, more);
      PrefixAfterRead(Flatten(segs), buf, Flatten(rest), remaining);
    }
  }

  /** One read of the unguarded loop, with the request, the bytes, the rest of the stream and what the later reads return named. */
  lemma BodyLoopStep(segs: seq<seq<Byte>>, remaining: nat, fuel: nat, n: nat, buf: seq<Byte>, rest: seq<seq<Byte>>, more: seq<Byte>)
    requires remaining > 0 && fuel > 0 && |buf| <= remaining
    requires n == (if remaining < ReceiveBufferSize then remaining else ReceiveBufferSize)
    requires buf == RecvData(segs, n) && rest == RecvRest(segs, n)
    requires BodyLoopAsWritten(rest, remaining - |buf|, fuel - 1) == Some(more)
    ensures BodyLoopAsWritten(segs, remaining, fuel) == Some(buf + more)
  {
  }

  /** The first `remaining` bytes of a stream a read split into `buf` and `tail`. */
  lemma PrefixAfterRead(whole: seq<Byte>, buf: seq<Byte>, tail: seq<Byte>, remaining: nat)
    requires whole == buf + tail && |buf| <= remaining <= |whole|
    ensures whole[..remaining] == buf + tail[..remaining - |buf|]
  {
  }

  /** More fuel does not change a finished loop's result. */
  lemma {:induction false} FuelMonotone(segs: seq<seq<Byte>>, remaining: nat, fuel: nat, more: nat)
    requires fuel <= more && BodyLoopAsWritten(segs, remaining, fuel).Some?
    ensures BodyLoopAsWritten(segs, remaining, more) == BodyLoopAsWritten(segs, remaining, fuel)
    decreases fuel
  {
    if remaining > 0 && fuel > 0 {
      var n := if remaining < ReceiveBufferSize then remaining else ReceiveBufferSize;
      var buf := RecvData(segs, n);
      FuelMonotone(RecvRest(segs, n), remaining - |buf|, fuel - 1, more - 1);
    }
  }

  // ----- connection state of the relay server's peers -----

  datatype ClientState = Connecting | Online | Disconnected | Stopped

  /** `BaseState`: a state field with predicates for each state. */
  class BaseState {
    var state: ClientState

    constructor ()
      ensures state == Stopped
    {
      state := Stopped;
    }

    method SetState(s: ClientState)
      modifies this
      ensures state == s
    {
      state := s;
    }

    /** `_in_status(*states)` */
    predicate InStatus(states: seq<ClientState>)
      reads this
    {
      state in states
    }

    predicate IsConnecting() reads this { InStatus([Connecting]) }
    predicate IsOnline() reads this { InStatus([Online]) }
    predicate IsDisconnected() reads this { InStatus([Disconnected]) }
    predicate IsStopped() reads this { InStatus([Stopped]) }

    /** Exactly one of the four state predicates holds, the one of the current state. */
    lemma ExactlyOneState()
      ensures IsConnecting() <==> state == Connecting
      ensures IsOnline() <==> state == Online
      ensures IsDisconnected() <==> state == Disconnected
      ensures IsStopped() <==> state == Stopped
      ensures (if IsConnecting() then 1 else 0) + (if IsOnline() then 1 else 0)
        + (if IsDisconnected() then 1 else 0) + (if IsStopped() then 1 else 0) == 1
    {
    }
  }
}
