# ChatBridgeE core, modelled in Dafny

ChatBridgeE relays chat between Minecraft servers, a Discord bot and a
central relay server. This project models the logic inside that relay:

- **The relay server hub** (`hub.dfy`, `Hub.BaseServer`). It holds a table from event name to an ordered
  list of listeners. `on_command_*` listeners add console command names. `dispatch` gives the
  ordered plan of `(callee, arguments)` calls it would schedule: first the built-in
  `on_<event>`, then the listeners under `on_<event>`. Each argument list is cut to the
  listener's positional arity, and failures are routed to `on_error`. The hub also has the
  login check and the session table keyed by `sid`.
- **Shortest-prefix command table** (`commands.dfy`, `Commands.CommandManager`).
- **Plugin host** (`plugin.dfy`, `Plugins.PluginHost`). It covers the plugin table with its duplicate and
  override rules, injection and ejection traces, and extension unloading by sub-module. The
  module cache is modelled as a map, and import results come from an oracle.
- **Session contexts** (`sessions.dfy`, `Sessions.Context`). These are the extra-command waiter table,
  the `emit` target choice, and the display-name and ordering rules.
- **Synchronous event registry** (`events.dfy`) and **client status machine** (`client.dfy`).
- **Framed transport** (`transport.dfy`). A 4-byte length prefix over the ciphertext, with a chunked
  read loop of at most 1024 bytes per read. The socket is a sequence of received segments.
- **File-sync envelope codecs** (`filesync.dfy`). The data-length field is 4 bytes in the server copy and
  2 bytes in the client copy.
- **RCON**, the Source RCON Protocol (`rcon.dfy`). This covers packet build and parse, the login-success
  rule, the connection states and the routing of replies to waiters.
- **Chat text converters.**
  - The style mini-language to Minecraft text components and ANSI (`styleformat.dfy`).
  - The hand-written Discord-markdown scanner (`dcscanner.dfy`).
  - The five-pass converter with `§r` collapsing (`dcconvert.dfy`). Its replacement codes are
    modelled as the table holds them.
  - The Discord helpers `fix_msg`, `style_message` and the pure part of `stats` (`discordhelpers.dfy`).
- **Parsers and validators.**
  - The online-player list parsers and the result ordering (`online.dfy`).
  - The type-directed configuration validator (`config.py`, in `config.dfy`).
  - The read client's extra-command reply builder (`read.dfy`).

Shared modules:

- `common.dfy`: `Wrappers`, the Python `str` helpers `PyStr`, the byte fields `Bytes`, and an
  insertion-ordered string-keyed dictionary `StrDict`.
- `utf8.dfy`: a UTF-8 codec.
- `values.dfy`: Python values with truthiness and `==`.
- `serverutils.dfy`: the server utility helpers.

Some inputs become parameters of the functions that use them:

- the AES cipher (`encrypt`, `decrypt`);
- JSON decoding (`loads`);
- an arity descriptor per listener, in place of `inspect.signature`;
- the results of the import system;
- whether a listener raises;
- `stats_helper`'s availability and its `show_rank` answer.

## Model

| member | source | states |
|---|---|---|
| Utf8.RoundTrip | server/utils/utils.py:84-86 | decoding the UTF-8 bytes of a text (`str.encode("utf-8")` then `bytes.decode("utf-8")`) gives the text back |
| Utf8.EncodeAppend | server/utils/utils.py:84-86 | the UTF-8 bytes of two joined texts are the bytes of the first followed by the bytes of the second |
| Bytes.BigEndianRoundTrip | server/utils/utils.py:82-88 | `int.from_bytes(v.to_bytes(n, "big"), "big") == v` for every `v` that fits in `n` bytes |
| Bytes.LittleEndianRoundTrip | server/utils/mc_rcon.py:101-104 | little-endian fields read back as the value written |
| Bytes.Int32RoundTrip | server/utils/mc_rcon.py:101-104 | a signed 32-bit little-endian field (`struct` format `<i`) reads back as the value written, negative values included |
| Bytes.UInt32RoundTrip | server/utils/chat_bridge.py:31-45 | the 4-byte `"I"` frame header reads back as the length written, in either byte order |
| PyStr.JoinSplit | server/core/server.py:47-48 | joining the pieces of `split(sep)` with `sep` gives the text back |
| PyStr.SplitAfterWord | server/core/server.py:47-48 | splitting a word, the separator and a rest gives the word followed by the pieces of the rest |
| PyStr.SplitWsConcat | server/core/command.py:63-66 | `str.split()` of two texts joined at whitespace is the tokens of the first followed by the tokens of the second |
| StrDict.PutFacts | server/core/command.py:34-45 | `d[k] = v` makes `k` map to `v`, leaves every other key's value alone, adds only `k` to the keys and keeps keys unique |
| StrDict.PopIsWithout | server/core/command.py:47-49 | `dict.pop(k, None)` on a dict is the dict without `k`, order kept |
| StrDict.WithoutNames | server/core/command.py:47-49 | after removing a set of names, a key is present exactly when it was present and not removed |
| PyValues.MissingNeverEqual | server/utils/utils.py:15-26 | `MISSING` compares unequal to every value, itself included, on either side, and is falsy |
| ServerUtils.FormatNumber | server/utils/utils.py:29-37 | `format_number`'s loop divides by 1000 at most five times: the value times 1000 to the power of the suffix index is the number, the value is below 1000 unless the last suffix was reached, at least 1 once divided, and the suffix is that index's character of `" KMGTP"` |
| ServerUtils.SuffixIndexUnique | server/utils/utils.py:29-37 | the conditions `format_number` ends on fix the suffix index: two indices that satisfy them are equal |
| Utf8.EncodeChar | server/utils/utils.py:84 | UTF-8 encodes one character in one to four bytes |
| Utf8.Encode | server/utils/utils.py:84 | a text's UTF-8 has at least one byte per character |
| Utf8.DecodeFirst | server/utils/utils.py:117 | decoding the first character of a byte string consumes between one byte and all of them |
| Bytes.BigEndian | server/utils/utils.py:82-88 | `v.to_bytes(n, "big")` has exactly `n` bytes |
| Bytes.BigEndianValue | server/utils/utils.py:116-118 | `int.from_bytes(s, "big")` is below 256 to the power of the length |
| Bytes.LittleEndian | server/utils/mc_rcon.py:102-104 | a little-endian field of `n` bytes has exactly `n` bytes |
| Bytes.LittleEndianValue | server/utils/mc_rcon.py:68 | a little-endian field reads back below 256 to the power of its length |
| Bytes.Int32Le | server/utils/mc_rcon.py:102-104 | `struct.pack("<i", v)` is four bytes |
| Bytes.UInt32 | server/utils/chat_bridge.py:31 | `struct.pack("I", n)` is four bytes, in either byte order |
| PyStr.Split | server/core/server.py:48 | `str.split(sep)` always returns at least one piece |
| PyStr.ReplaceChar | plugins/discord/client.py:380 | replacing a character that does not occur leaves the text alone |
| PyStr.LStrip | plugins/online.py:38 | `lstrip` removes a prefix and leaves no whitespace at the front |
| PyStr.RStrip | plugins/online.py:38 | `rstrip` removes a suffix and leaves no whitespace at the end |
| PyStr.Strip | plugins/online.py:38 | `strip` keeps only characters of the text, never lengthens it, and leaves no whitespace at either end |
| PyStr.TokenLength | server/core/command.py:63-66 | a token is the longest run of non-whitespace at the front |
| PyStr.LineLength | plugins/online.py:49 | a line is the longest run without a line break at the front |
| PyStr.SplitLines | plugins/online.py:49 | `splitlines` gives no lines exactly for the empty text |
| PyStr.ParseInt | server/utils/mc_rcon.py:142 | `int(s)` succeeds only on a text that is not blank |
| PyValues.PyEqSymmetric | server/context.py:129-134 | Python equality of configuration values is symmetric |
| PyValues.FindKey | server/core/server.py:205 | a key is found at its first equal entry, and only when an entry equals it |
| PyValues.DictGet | server/core/server.py:205 | `dict.get` finds a value exactly when some key equals the one asked for |
| PyValues.DictSet | chatbridgee/chatbridgee/read.py:114-121 | `d[k] = v` replaces an equal key's value in place or appends one entry |
| PyValues.DictSetNew | chatbridgee/chatbridgee/read.py:114-121 | setting a key no entry has appends it at the end |
| StrDict.Find | server/core/command.py:34-35 | a name is found at its first entry, and exactly when some entry has it |
| StrDict.Get | server/plugin.py:176-177 | a lookup finds a value exactly when some entry has the name |
| StrDict.Put | server/core/command.py:34-35 | `d[k] = v` keeps the length or adds one entry |
| StrDict.PutGet | server/core/command.py:34-35 | after `d[k] = v`, `k` maps to `v` and every other name keeps its value |
| StrDict.Pop | server/plugin.py:180 | `dict.pop(k, None)` never makes the dict longer |
| StrDict.Without | server/core/command.py:47-49 | removing names never makes the dict longer |
| StrDict.Keys | server/plugin.py:193 | the keys of a dict are its entries' names, in order |
| Transport.Socket.Recv | server/utils/chat_bridge.py:49-52 | one `sock_recv(n)` returns at most `n` bytes from the front of what the peer still has to send and leaves the rest pending; it returns nothing for a positive request exactly when the peer has closed |
| Transport.RecvSplits | server/utils/chat_bridge.py:49-54 | the bytes a read returns followed by the bytes left are the whole stream, and the stream left has no empty segment |
| Transport.Frame | server/utils/chat_bridge.py:30-31 | the frame is a 4-byte `"I"` header holding the ciphertext's length, then the ciphertext; it exists exactly when that length fits in 32 bits |
| Transport.ServerSendBytesAsText | server/utils/chat_bridge.py:27-31 | the relay server sends the UTF-8 bytes of a text exactly as it sends the text itself |
| Transport.ServerSendRejectsBadUtf8 | server/utils/chat_bridge.py:28-29 | bytes that are not UTF-8 fail with `UnicodeDecodeError` before anything is encrypted or sent |
| Transport.ReadBody | server/utils/chat_bridge.py:48-54 | the body loop, with the closed peer handled, returns exactly the first `length` bytes and leaves the rest unread, or fails with `EmptyContent` having consumed everything when fewer arrive; every request is for between 1 and 1024 bytes |
| Transport.ReadFrame | server/utils/chat_bridge.py:37-54 | corrected (see Findings): the header read then the body loop with the closed-peer check, so a body cut short ends as `Truncated`; the result is the closed/short-header/truncated/body outcome of the stream, and after a body the stream left is what follows the frame |
| Transport.ServerSend | server/utils/chat_bridge.py:24-31 | bytes that are not UTF-8 are refused; a sent frame's 4-byte header gives the length of what follows, which is the encrypted text |
| Transport.ClientSend | chatbridge/utils/chat_bridge.py:22-31 | a sent frame's 4-byte header gives the length of what follows, which is the encryption of the text's UTF-8 or of the bytes as given |
| Transport.ServerReceiveSpec | server/utils/chat_bridge.py:33-63 | corrected (see Findings): the relay server's reading of a frame is an error exactly for a short header or a cut body, always `EmptyContent`; `False` exactly for no header; a message only from a whole body |
| Transport.ServerReceive | server/utils/chat_bridge.py:33-63 | corrected (see Findings): the relay server's `receive_data` is `False` for an empty header and `EmptyContent` for a 1–3 byte header or, with the fix, a body cut short; otherwise the decrypted text parsed as JSON when it parses and the raw text when it does not |
| Transport.ClientReceive | chatbridge/utils/chat_bridge.py:35-52 | corrected (see Findings): the old client's `receive_data` gives `EmptyContent` for any header shorter than 4 bytes, an empty one included, and, with the fix, for a body cut short; otherwise the decrypted text, never parsed |
| Transport.FrameRoundTrip | server/utils/chat_bridge.py:27-54 | a stream that starts with a frame reads back as that frame's ciphertext, however the body is segmented, and leaves exactly the bytes after the frame |
| Transport.ServerToServer | server/utils/chat_bridge.py:24-63 | a non-JSON text sent by the relay server reads back, with the inverse cipher, as that same text |
| Transport.TruncatedBodyNeverFinishes | server/utils/chat_bridge.py:48-54 | the unguarded loop never finishes, however many reads it gets, when the peer closes before the announced body has arrived |
| Transport.CompleteBodyFinishes | server/utils/chat_bridge.py:48-54 | when the whole body is available the unguarded loop finishes within `remaining` reads with the first `remaining` bytes, the same as `ReadBody` |
| Transport.BaseState.constructor | server/utils/chat_bridge.py:74-75 | a new state holder is STOPPED |
| Transport.BaseState.SetState | server/utils/chat_bridge.py:81-82 | `set_state` replaces the state |
| Transport.BaseState.ExactlyOneState | server/utils/chat_bridge.py:84-97 | each `_is_*` predicate holds exactly in its own state, and exactly one of them holds |
| Transport.RecvData | server/utils/chat_bridge.py:49-52 | a read never returns more than the `n` bytes asked for |
| Transport.RecvKeepsBytes | server/utils/chat_bridge.py:49-52 | a read loses no bytes: what it returns followed by what is left is the whole stream |
| Transport.RecvKeepsSegmented | server/utils/chat_bridge.py:49-52 | the stream left after a read has no empty segment |
| FileSync.Encode | server/utils/utils.py:79-102 | the record is flag (1 byte), path length (2) and path, data length (`width` bytes: 4 on the relay server, 2 on the client) and data, then a 2-byte name length and the name only when the server name is non-empty; its length is `1 + 2 + n + width + m`, plus `2 + o` with a name |
| FileSync.BytesIO.constructor | server/utils/utils.py:115 | a new cursor sits at 0 over the whole buffer |
| FileSync.BytesIO.Read | server/utils/utils.py:116-122 | `read(n)` returns the next `n` bytes, or fewer at the end of the buffer, and moves the cursor past them; the buffer is unchanged |
| FileSync.Decode | server/utils/utils.py:112-125 | `decode` reads the fields in the order and widths `encode` writes them through the cursor; no name when the cursor is at the end after the data; a path or name that is not UTF-8 is `UnicodeDecodeError`; a short input is never an error |
| FileSync.RoundTrip | server/utils/utils.py:79-125 | `decode(encode(f))` gives back flag, path, data and a non-empty server name; an empty or absent server name comes back as `None` |
| FileSync.RoundTripNamed | chatbridgee/chatbridgee/utils.py:48-94 | a record with a non-empty server name decodes, with the width it was encoded with, to itself |
| FileSync.RoundTripUnnamed | chatbridgee/chatbridgee/utils.py:48-94 | a record without a server name decodes, with the width it was encoded with, to the same record with no name |
| FileSync.WidthsNotInterchangeable | chatbridgee/chatbridgee/utils.py:57 | the two layouts do not mix: the empty record written with the relay server's 4-byte data length, read with the client's 2-byte one, gains a server name `""` it never had |
| FileSync.Head | server/utils/utils.py:79-97 | the record without its server name is one flag byte, a 2-byte path length, the path, a `width`-byte data length and the data, by length |
| FileSync.RoundTripFields | server/utils/utils.py:79-125 | decoding an encoded record gives back its flag, path and data, and its server name normalised |
| FileSync.EmptyRecordBytes | server/utils/utils.py:79-102 | the empty record is the zero flag followed by three zero 2-byte lengths |
| Rcon.Code | server/utils/mc_rcon.py:15-18 | the packet type codes are COMMAND_RESPONSE 0, COMMAND_EXECUTE 2 and LOGIN 3 |
| Rcon.CodesDistinct | server/utils/mc_rcon.py:15-18 | two packet types have the same code exactly when they are the same type |
| Rcon.Build | server/utils/mc_rcon.py:101-104 | the packet written is 14 bytes plus the body's UTF-8 length, and its leading signed little-endian size is 10 plus that length; packing fails exactly when the size does not fit a signed 32-bit field |
| Rcon.BuildFields | server/utils/mc_rcon.py:101-104 | after the size come the little-endian id, the little-endian type, the UTF-8 body and two NUL bytes |
| Rcon.RoundTrip | server/utils/mc_rcon.py:63-104 | parsing what `_send` writes gives back its id, its type and its body |
| Rcon.ParseReply | server/utils/mc_rcon.py:63-77 | a reply of fewer than 8 bytes after the size is `struct.error`, exactly; a parsed id and type fit signed 32 bits, and a reply with no room for a body has the empty body |
| Rcon.ParseReplyAsWritten | mc_rcon.py:60-67 | the older client's parse has the same `struct.error` case and 32-bit fields; only a reply of at most 9 bytes after the size has the empty body |
| Rcon.AsWrittenBodyKeepsNul | mc_rcon.py:60-67 | the older client's `data_received` cuts the body one byte before the end, so a packet built for body `b` reads back with body `b` followed by a NUL |
| Rcon.AsWrittenFields | mc_rcon.py:60-67 | the older client's parse reads the id from bytes 4–8, the type from bytes 8–12 and the body from byte 12 to one before the end |
| Rcon.RconClientProtocol.constructor | server/utils/mc_rcon.py:43-54 | a new protocol is CONNECTING with its read future pending and no transport |
| Rcon.Written | server/utils/mc_rcon.py:98-104 | a write through `_transport` succeeds exactly when a transport is set and the packet was built, and is then that packet; with no transport it is `AttributeError` even for a packet too large to pack, because `self._transport.write` is looked up before its argument; with a transport an oversized packet is `struct.error` |
| Rcon.RconClientProtocol.ConnectionMade | server/utils/mc_rcon.py:59-61 | `connection_made` sets the transport and CONNECTED and leaves the future alone |
| Rcon.RconClientProtocol.Close | server/utils/mc_rcon.py:91-93 | `close` succeeds exactly when a transport was set, and then sets CLOSED; without one it is `AttributeError` and the state stays as it was |
| Rcon.RconClientProtocol.DataReceived | server/utils/mc_rcon.py:63-86 | a well-formed reply resolves the pending read future with the parsed packet; a reply arriving while the future is already resolved is an `InvalidStateError` and changes nothing; a short or non-UTF-8 reply raises and changes nothing; the state never changes |
| Rcon.RconClientProtocol.Send | server/utils/mc_rcon.py:98-104 | `_send` writes the packet built with id 0, the type's code and the text; it fails with `AttributeError` when there is no transport, whatever the packet, and otherwise exactly when the packet cannot be built (`struct.error`) |
| Rcon.RconClientProtocol.TakeReply | server/utils/mc_rcon.py:106-109 | the awaited reply is the resolved packet, and a fresh pending future replaces the old one |
| Rcon.RconClientProtocol.CompleteAuthenticate | server/utils/mc_rcon.py:111-118 | login succeeds, and the state becomes AUTHENTICATED, exactly when the reply has type 2 and id 0; otherwise `LoginError` and the state is unchanged |
| Rcon.ClientSettings | server/utils/mc_rcon.py:132-145 | the host defaults to `"localhost"`, the password to `""` and the port to 25575; a string port goes through `int()`, and the settings fail exactly when that does not parse |
| Rcon.RconClient.constructor | server/utils/mc_rcon.py:132-145 | a client holds its settings and its protocol |
| Rcon.RconClient.Connect | server/utils/mc_rcon.py:151-158 | connecting an already connected client raises when `exception` is set and otherwise returns doing nothing; an unreachable server is `OSError` with state and transport unchanged; otherwise the protocol gets its transport, becomes CONNECTED and the login packet with the password is sent |
| Rcon.RconClient.Disconnect | server/utils/mc_rcon.py:164-165 | `disconnect` closes the protocol, which is then CLOSED and not connected, exactly when it had a transport; otherwise `AttributeError` and the state is unchanged |
| Rcon.AsWrittenLaterRepliesMissTheirWaiter | mc_rcon.py:84-87 | as written, `execute` puts request id 0 on the wire while its waiter is under `_id`, so from the second call on the reply that echoes the request id never reaches its waiter |
| Rcon.ExecutePacketAsWritten | mc_rcon.py:84-87 | the packet `execute` writes as the file has it reads back as request id 0 with the command, whatever `_id` is |
| Rcon.ExecutePacket | mc_rcon.py:84-87 | corrected (see Findings): the packet `execute` writes with the fix reads back with request id `_id` and the command |
| Rcon.RepliesReachTheirWaiter | mc_rcon.py:60-87 | with `_id` written as the request id, the reply that echoes it is routed to that `execute`'s waiter and carries the command's output |
| Rcon.RconRootProtocol.constructor | mc_rcon.py:25-34 | a new protocol keeps the password, is CONNECTING, has `_id` -1, no waiters and no transport |
| Rcon.RconRootProtocol.ConnectionMade | mc_rcon.py:56-58 | `connection_made` sets the transport and CONNECTED and changes nothing else |
| Rcon.RconRootProtocol.InstallWaiter | mc_rcon.py:39-40 | `_wait_receive` installs a fresh pending waiter under the key, replacing any earlier one |
| Rcon.RconRootProtocol.FinishWait | mc_rcon.py:42-43 | once resolved, the waiter is deleted; its result is dropped, since `_wait_receive` returns `None` |
| Rcon.RconRootProtocol.DataReceived | mc_rcon.py:60-74 | corrected (see Findings): a reply of type 2 goes to the waiter under `None` and any other to the waiter under its id; with no waiter it is dropped; a waiter already resolved raises `InvalidStateError`; the body is cut before both NUL bytes, where the file cuts one |
| Rcon.RconRootProtocol.Authenticate | mc_rcon.py:79-81 | `authenticate` writes the login packet with the password and installs a waiter under `None`; with no transport the write is `AttributeError`, even for a password too long to pack, and no waiter is installed |
| Rcon.RconRootProtocol.Execute | mc_rcon.py:84-87 | corrected (see Findings): `execute` increments `_id` even when the write fails; the command is written with that id, where the file writes 0, and a waiter is installed under it only when the write succeeds; with no transport the write is `AttributeError`, even for a command too long to pack |
| Rcon.DecodeWithNul | mc_rcon.py:67 | the UTF-8 of a body with one NUL after it decodes to the body and the NUL |
| EventRegistry.NewHandler | chatbridgee/utils/events.py:27-30 | an `EventHandler` keeps the function and its name, and its event name is the one given or else the function's name |
| EventRegistry.Decorate | chatbridgee/utils/events.py:47-56 | `@event("x")` marks the function with `x` and wraps it; a bare `@event` wraps the function itself; `event()` with no argument fails with `AttributeError` |
| EventRegistry.DecorateEventName | chatbridgee/utils/events.py:47-56 | `@event("x")` handles event `x`; a bare `@event` handles the function's `__event_name__` when it has one and its own name otherwise |
| EventRegistry.RedecorateKeepsName | chatbridgee/utils/events.py:50-52 | re-decorating the function `@event("x")` marked keeps event name `x` |
| EventRegistry.AttrEventsHas | chatbridgee/utils/events.py:70-75 | every handler attribute of a class body is listed under its event name |
| EventRegistry.AttrEventsOnly | chatbridgee/utils/events.py:70-75 | only handler attributes are listed, each under its own event name |
| EventRegistry.ClassEventsHas | chatbridgee/utils/events.py:69-77 | every handler of every class of the MRO is gathered, those a subclass overrides included |
| EventRegistry.ClassEventsOrder | chatbridgee/utils/events.py:69-77 | bases come first: the handlers of the most derived class come last, in their definition order |
| EventRegistry.CollectEvents | chatbridgee/utils/events.py:62-79 | the metaclass's loops over `reversed(__mro__)` and each `__dict__` build exactly the gathered handler list |
| EventRegistry.CollectAttrs | chatbridgee/utils/events.py:70-75 | the inner loop collects exactly the handler attributes of one class body, in order |
| EventRegistry.BindAll | chatbridgee/utils/events.py:91-92 | after construction every gathered handler's shared `cls` slot holds the new instance, and every other handler's slot is unchanged |
| EventRegistry.ArgsAccumulate | chatbridgee/utils/events.py:96-98 | inside one dispatch the bound instances prepended to `args` accumulate: a listener sees the instances of every bound handler up to it, newest first, before the original arguments |
| EventRegistry.TwoBoundHandlers | chatbridgee/utils/events.py:96-98 | with two bound handlers, the first is called with its instance and the arguments and the second with both instances, its own first |
| EventRegistry.ListRunStep | chatbridgee/utils/events.py:96-103 | one turn of the loop: `args` gains the listener's instance when it is a bound handler, and the call is made with the new `args` |
| EventRegistry.EventRun | chatbridgee/utils/events.py:95-103 | dispatching an event that does not overflow calls at least every listener registered for it, and an overflowing one made at least one call |
| EventRegistry.ListRun | chatbridgee/utils/events.py:95-103 | a run over the listener list calls at least each listener unless it overflows, and its first call is the first listener with the arguments extended by that listener's bound instance |
| EventRegistry.Turn | chatbridgee/utils/events.py:99-103 | one loop turn records its call after the earlier ones, and can overflow only when that call raises |
| EventRegistry.ListRunStops | chatbridgee/utils/events.py:100-103 | once the recursion limit is hit, the rest of the list is not run |
| EventRegistry.UnknownEventCallsNothing | chatbridgee/utils/events.py:95-96 | dispatching a name with no listeners calls nothing |
| EventRegistry.QuietRunExact | chatbridgee/utils/events.py:95-103 | when no listener raises, `dispatch` calls each listener exactly once, in registration order, with the accumulated arguments, and nothing else |
| EventRegistry.EveryListenerCalled | chatbridgee/utils/events.py:95-103 | a listener that raises does not stop the loop: every listener is called while the recursion limit is not hit |
| EventRegistry.FailureRedispatched | chatbridgee/utils/events.py:100-103 | a listener that raises is followed by a nested `dispatch("dispatch_error", func, e)` before the next listener |
| EventRegistry.RaisingErrorListenerOverflows | chatbridgee/utils/events.py:100-103 | when every listener raises and `dispatch_error` has a listener, the re-dispatch never stops short of the recursion limit |
| EventRegistry.ListenForms | chatbridgee/utils/events.py:111-122 | `listen(f)` and `listen()` register under the function's name and `listen("x")` under `x` |
| EventRegistry.HandlerSlots.constructor | chatbridgee/utils/events.py:25 | every handler's `cls` starts unset |
| EventRegistry.Events.constructor | chatbridgee/utils/events.py:88-93 | a new registry has each gathered handler registered under its event name, in order, and bound to the new instance |
| EventRegistry.Events.AddListener | chatbridgee/utils/events.py:105-109 | `add_listener` appends the function to the list for the name (the function's name by default), creating the list when absent, and changes no other list |
| EventRegistry.Events.Listen | chatbridgee/utils/events.py:111-122 | `listen` registers the function under the name its form gives and returns it |
| EventRegistry.Events.Dispatch | chatbridgee/utils/events.py:95-103 | `dispatch` makes exactly the calls the run of the listener list describes, changes no listener list, and fails with `RecursionError` exactly when the nested re-dispatch hits the recursion limit |
| EventRegistry.Events.CallOne | chatbridgee/utils/events.py:96-103 | one loop turn: the extended `args`, the call, the nested `dispatch_error` when it raised, and whether the recursion limit was hit |
| EventRegistry.Events.RunTurn | chatbridgee/utils/events.py:99-103 | the call is recorded after the earlier ones; a raising call is followed by the nested `dispatch_error` or, at the recursion limit, by the overflow, as `Turn` describes |
| EventRegistry.AttrEvents | chatbridgee/utils/events.py:70-75 | a class body lists at most one handler per attribute |
| Client.PayloadOf | chatbridgee/core/client.py:99-118 | the `call` payload carries the event name and the receivers, `[]` when none are given |
| Client.PayloadData | chatbridgee/core/client.py:109-113 | the payload's data passes through unchanged when no structure is registered for the event or the structure is `-1`, and is `structure(data)` otherwise |
| Client.AddedStructureShapes | chatbridgee/core/client.py:93-113 | after `add_event_structure(e, f)` the data of `e` is `f(data)`, and the payloads of other events are unchanged |
| Client.DisconnectGuardNeverTaken | chatbridgee/core/client.py:154-156 | the guard of `__disconnect` tests the bound method `is_running`, which is truthy, so it never returns early |
| Client.BaseClient.constructor | chatbridgee/core/client.py:30-40 | a new client is STOPPED, has no structures and has the default server URL |
| Client.BaseClient.StatusPredicates | chatbridgee/core/client.py:69-88 | a connected client (CONNECTED or ONLINE) is running; a stopped one is neither connected, connecting nor disconnected; running means connecting, connected or disconnected |
| Client.BaseClient.GetStructure | chatbridgee/core/client.py:90-91 | `get_structure` returns the registered structure, and `None` exactly for an event with none |
| Client.BaseClient.AddEventStructure | chatbridgee/core/client.py:93-94 | `add_event_structure` sets one entry and changes nothing else |
| Client.BaseClient.SetEventStructure | chatbridgee/core/client.py:96-97 | `set_event_structure` replaces the whole table and changes nothing else |
| Client.BaseClient.CallPayload | chatbridgee/core/client.py:99-118 | `call` sends the payload its structure table gives for the event |
| Client.BaseClient.SetStatus | chatbridgee/core/client.py:160-162 | `_set_status` replaces the status |
| Client.BaseClient.Start | chatbridgee/core/client.py:140-152 | `start` on a running client changes nothing; otherwise the status becomes CONNECTING |
| Client.BaseClient.Disconnect | chatbridgee/core/client.py:154-158 | `__disconnect` always ends DISCONNECTED |
| Client.BaseClient.Stop | chatbridgee/core/client.py:125-132 | `stop` on a client not running changes nothing; otherwise it passes through DISCONNECTED and ends STOPPED |
| Client.BaseClient.OnConnect | chatbridgee/core/client.py:51-54 | the socket's `connect` sets CONNECTED, then dispatches `connect` to the listeners |
| Client.BaseClient.OnDisconnect | chatbridgee/core/client.py:61-64 | the socket's `disconnect` sets DISCONNECTED, then dispatches `disconnect` |
| Client.BaseClient.OnConnectError | chatbridgee/core/client.py:56-59 | the socket's `connect_error` runs `stop`, then dispatches `connect_error` |
| Commands.Entries | server/core/command.py:41-45 | a tuple of names becomes entries with display `None`, in order; a dict is taken as given |
| Commands.PutAllFacts | server/core/command.py:41-45 | after `update`, a name given in the update maps to its last given display and every other name keeps its display; names stay unique |
| Commands.FirstPrefixAppend | server/core/command.py:54-57 | the first prefix in two lists joined is the first one of the first list, or else of the second |
| Commands.LayersNone | server/core/command.py:54-57 | when no key of lengths `n` to `n + count - 1` matches, every matching key is shorter or longer than that range |
| Commands.LayersSome | server/core/command.py:54-57 | the key found among lengths from `n` up is the first registered key of its length that matches, and no matching key of length at least `n` is shorter |
| Commands.ChosenKey | server/core/command.py:54-57 | the stable sort by length makes the chosen key the shortest registered key that is a raw prefix of the line, ties going to the first registered; none is chosen exactly when no key is a prefix |
| Commands.EmptyKeyShadowsAll | server/core/command.py:54-61 | a registered empty command name is a prefix of every line and is chosen, and then nothing is dispatched |
| Commands.NoPrefixIsUnknown | server/core/command.py:59-61 | a line no key is a prefix of is an unknown command, and nothing is dispatched |
| Commands.ShortestPrefixDispatches | server/core/command.py:54-66 | a shortest matching key dispatches `command_` + the key with spaces as `_`, with the line's tokens after as many as the key has words, word boundary or not |
| Commands.WordBoundaryArgs | server/core/command.py:63-66 | when the key ends at a word boundary, the arguments are exactly the tokens of the rest of the line |
| Commands.CommandManager.constructor | server/core/command.py:30-32 | a new manager has no commands |
| Commands.CommandManager.AddCommand | server/core/command.py:34-35 | `add_command` sets or overwrites the display for one name |
| Commands.CommandManager.AddCommands | server/core/command.py:37-45 | `add_commands` merges the tuple's names with display `None`, or the dict as given |
| Commands.CommandManager.RemoveCommand | server/core/command.py:47-49 | `remove_command` removes exactly the given names, ignores absent ones, and keeps the other entries and their order |
| Commands.CommandManager.CallCommand | server/core/command.py:51-66 | `call_command` dispatches what the shortest-prefix choice over the registered keys in insertion order gives |
| Commands.OfLength | server/core/command.py:54-57 | the keys of one layer all have that length |
| Commands.MaxLength | server/core/command.py:54-57 | no registered key is longer than the longest |
| Commands.FirstPrefix | server/core/command.py:54-57 | the key found is a raw prefix of the line |
| Commands.LayersFirst | server/core/command.py:54-57 | over the length layers from `n` on, a key found is the first registered key of its length that matches and is no longer than any matching key of length at least `n`; when none is found, every matching key lies outside the layers |
| Commands.NameSet | server/core/command.py:41-45 | the names of a tuple form exactly the set of its elements |
| Sessions.PortNumber | server/utils/mc_rcon.py:142 | `int(port)` keeps an integer, parses a string (succeeding exactly when it is an integer literal) and rejects `None`, lists, dicts and objects with `TypeError` |
| Sessions.RconFor | server/context.py:32-41 | an RCON client is configured only when `auth["rcon"]` is a dict, from its `ip` (default `"localhost"`), `port` and `password` (default `""`); reading `server.loop`, which no server class defines, makes that case `AttributeError`; otherwise there is none |
| Sessions.EmptyAuthHasNoRcon | server/context.py:22-41 | a context made with the default empty `auth` has no RCON client |
| Sessions.ExplicitTargetWins | server/context.py:80 | an explicit `to` is always the target |
| Sessions.DefaultTarget | server/context.py:80 | without `to`, the target is the context's own `sid` exactly when the `sid` is non-empty and `skip_sid` is falsy; otherwise `to` stays `MISSING` |
| Sessions.SkipSidListIdempotent | server/context.py:82 | a non-list `skip_sid` is wrapped in a one-element list, and a list is kept, so normalising twice changes nothing |
| Sessions.CallbackTouchesOnlyItsCommand | server/context.py:43-49 | a callback result resolves at most the waiter stored under its own command, and never adds or removes a waiter |
| Sessions.CallbackResult | server/context.py:43-49 | the callback fails only with `AttributeError` (exactly when the result is not a dict), `TypeError` or `CancelledError`, the last only for a command whose stored waiter was cancelled |
| Sessions.MissingCommandResolvesNothing | server/context.py:44-46 | a result whose `command` is missing or empty is only logged, and resolves nothing |
| Sessions.ReplyResolvesWaiter | server/context.py:48-49 | a result for a command whose waiter is pending resolves that waiter with the result |
| Sessions.LateReplyRaises | server/context.py:48-49 | a result for a command whose waiter timed out raises, because a cancelled future cannot take a result, and changes nothing |
| Sessions.Context.constructor | server/context.py:17-41 | the state a successful `__init__` leaves: its `sid`, user, `auth`, the loop flag, the RCON settings `RconFor` gives and no waiters; the `AttributeError` path is `NewContext`'s |
| Sessions.NewContext | server/context.py:17-41 | `Context(...)` is the `AttributeError` of `RconFor` when the `auth` configures RCON and the server has no loop; otherwise a fresh context with the `sid`, user, `auth`, RCON settings and no waiters |
| Sessions.Context.DisplayName | server/context.py:102-105 | `display_name` is the user's display name when truthy and the user name otherwise |
| Sessions.Context.Emit | server/context.py:65-86 | `emit` passes the event, data and room through, picks the target by the `sid`/`to`/`skip_sid` rule and sends `skip_sid` as a list |
| Sessions.Context.LessEq | server/context.py:129-134 | `ctx <= other` compares user names and `sid`s against a context, the user name against a string, and is `None` otherwise |
| Sessions.LessEqReflexiveSymmetric | server/context.py:129-131 | a context is `<=` itself unless its user name is `MISSING`, and comparing two contexts is symmetric |
| Sessions.Context.CmdCallback | server/context.py:43-49 | `_cmd_callback_callback` changes the waiters and returns as the callback rule says |
| Sessions.Context.ExtraCommand | server/context.py:51-63 | `extra_command` emits `"extra_command"` with the command to the context's own session; then, exactly when the server has a loop, stores a fresh pending waiter under the command, replacing any earlier one; without one, `Future(loop=server.loop)` is `AttributeError` and the waiters stay as they were |
| Sessions.Context.TimeOut | server/context.py:63 | a timeout cancels the waiter when it is still pending and changes nothing otherwise |
| Sessions.Context.ExecuteCommand | server/context.py:107-114 | without an RCON client `execute_command` returns `...` and contacts nothing; with one it connects and executes the command |
| Hub.IndexOf | server/core/server.py:65 | the index `list.remove` uses is that of the first occurrence of the listener |
| Hub.RemoveFirst | server/core/server.py:63-67 | removing a listener drops exactly its first occurrence, and an absent listener (the swallowed `ValueError`) leaves the list as it was |
| Hub.ListenerCalls | server/core/server.py:86-88 | each stored listener is scheduled once, in order, under the bare event name and with the dispatch arguments |
| Hub.GetArgsLen | server/core/server.py:111-119 | `__get_args_len` is -1 when there is a `*args` parameter and otherwise counts the positional-or-keyword parameters |
| Hub.Subscript | server/core/server.py:153 | reading `auth[key]` fails only with `KeyError` or `TypeError` |
| Hub.PairsToDict | server/core/server.py:205 | `dict()` of a list fails only with `TypeError` or `ValueError` |
| Hub.ToDict | server/core/server.py:205 | `dict(v)` copies a dict, raises `TypeError` for `None` (a missing user) and `ValueError` for a non-empty string, and fails with nothing else |
| Hub.CheckUser | server/core/server.py:201-216 | `check_user` fails with `AttributeError` when the configured users are not a dict and otherwise only with the `ValueError` it does not catch; a user is returned exactly when the record type takes the name and the configured record under the name, through `dict()`, has a `"password"` equal to the given one, and it then carries the name and the record's `display_name`; a hashable name with such a record always gives a result; an unhashable or unknown name is `None` |
| Hub.CheckUserAsShownNeverAdmits | server/core/server.py:205-214 | with the user record as declared, building the `UserAuth` raises the caught `TypeError`, so `check_user` never returns a user |
| Hub.CheckUserAdmitsConfiguredPassword | server/core/server.py:201-212 | with a record type that takes the name, the configured password admits the configured user |
| Hub.SplitJoinWords | server/core/server.py:48 | splitting a join of words that avoid the separator gives the words back |
| Hub.ListenerCommandWords | server/core/server.py:47-48 | the listener `on_command_w1_..._wk` registers the command `"w1 ... wk"` |
| Hub.ListenerCommandOf | server/core/server.py:48 | the command of an `on_command_` name is the words of what follows the prefix, joined by spaces |
| Hub.CommandRoundTrip | server/core/server.py:47-48 | for a listener name without spaces, the command it registers dispatches exactly the event the listener is stored under |
| Hub.PlanReachesOnlyOnPrefixed | server/core/server.py:76-88 | every call `dispatch(e)` schedules is the built-in `on_<e>` or a listener stored under `"on_<e>"` |
| Hub.AddedListenerRunsLast | server/core/server.py:50-53 | a listener added under `"on_<e>"` is scheduled after all earlier ones when `e` is dispatched, and nothing else changes |
| Hub.UnprefixedNameNeverDispatched | server/core/server.py:77-88 | listeners stored under a name without the `on_` prefix never change what any dispatch schedules |
| Hub.PassedArgsPrefix | server/core/server.py:100-101 | `_run_event` passes a prefix of the arguments, and all of them when the arity is unknown or not smaller |
| Hub.RunEventErrors | server/core/server.py:97-109 | no exception means no `on_error`; a `CancelledError` from the listener skips `on_error` and escapes; any other exception awaits `on_error` with the event name and the passed arguments, and only a non-cancellation exception from `on_error` escapes |
| Hub.ErrorEventNames | server/core/server.py:84-88 | the error report of the built-in names its method `on_<e>`, that of a stored listener the bare event `e` |
| Hub.CatchAllArgs | server/core/server.py:175-180 | the catch-all handler passes the sender's context first, then spreads a list payload or passes any other payload as one argument |
| Hub.ServerEmit | server/core/server.py:218-238 | `emit` forwards the event, data, `to` and room unchanged and always sends `skip_sid` as a list |
| Hub.BaseServer.constructor | server/core/server.py:24-37 | a new hub has no listeners, no clients and an empty command table, and records whether it has a `loop` attribute |
| Hub.DispatchPlan | server/core/server.py:76-88 | `dispatch` schedules the built-in `on_<e>` first when there is one, under its method name, then one call per listener under `on_<e>`, each under the event name, all with the arguments given |
| Hub.RunEvent | server/core/server.py:90-109 | `on_error` is scheduled exactly when the listener raises something other than `CancelledError`, with the event name before the listener's arguments; a `CancelledError` escapes only when the listener raised it, and otherwise only `on_error`'s non-cancellation error escapes |
| Hub.BaseServer.AddListener | server/core/server.py:41-53 | a non-coroutine raises `TypeError` and changes nothing; otherwise the listener is appended under its name, and an `on_command_` name also registers its command |
| Hub.BaseServer.RemoveListener | server/core/server.py:55-67 | an `on_command_` name drops its command; the first occurrence of the listener is removed from under its name, and an unknown name changes no listeners |
| Hub.BaseServer.Dispatch | server/core/server.py:76-88 | `dispatch` schedules the built-in `on_<e>` under its method name, then each listener stored under `"on_<e>"`, in order |
| Hub.BaseServer.Connect | server/core/server.py:150-163 | a client is admitted exactly when `check_user` returns a user for `auth["name"]` and `auth["password"]`; a rejected one gets the error in its own room and changes nothing; an exception other than the caught ones escapes |
| Hub.BaseServer.Admit | server/core/server.py:161-163 | an admitted client is stored under its `sid` as a fresh context with the default empty `auth`, so no RCON client and no `server.loop` read; its callback is appended under `"cmd_callback"`, and `connect` is dispatched with the context and the `auth` |
| Hub.BaseServer.Disconnect | server/core/server.py:165-170 | an unknown `sid` does nothing; a known one is removed and `disconnect` is dispatched with its context |
| Hub.BaseServer.ElseEvent | server/core/server.py:172-180 | the catch-all handler dispatches the event with the sender's context, or `None` for an unknown `sid`, and the payload |
| Hub.BaseServer.FinalizeContext | server/context.py:123-127 | a context being collected removes the first occurrence of its callback from under `"cmd_callback"` and changes nothing else |
| Hub.CallbackNameIsNoCommand | server/context.py:30 | the name the contexts' callbacks are stored under registers no command |
| Hub.LoginUser | server/core/server.py:152-153 | the login attempt fails only with `AttributeError` or `ValueError`, the exceptions the handler does not catch |
| Hub.NoLoginAsShown | server/core/server.py:152-163 | with the user record as declared, no client is ever admitted |
| Hub.MalformedAuthRejected | server/core/server.py:152-160 | an `auth` that is not a dict or lacks `name` or `password` is rejected, not escaped |
| Plugins.SubmoduleTransitive | server/plugin.py:281-282 | a module under a module under `a` is itself under `a` |
| Plugins.SiblingNotSubmodule | server/plugin.py:281-282 | a name that extends the parent without a dot (`a.bc` for `a.b`) is not under it |
| Plugins.ChildIsSubmodule | server/plugin.py:281-282 | a direct child `p.x` is under `p` |
| Plugins.EventNames | server/plugin.py:57-61 | every listener is recorded under at least one event name |
| Plugins.LastListener | server/plugin.py:49-57 | the definition found in one class body is a listener attribute of that name from the body |
| Plugins.ResolveListener | server/plugin.py:48-57 | the winning definition is a listener attribute of the name asked for |
| Plugins.ClassEventsGet | server/plugin.py:49-61 | after one class body, a name maps to the event names of its last listener definition there, and otherwise keeps its earlier entry |
| Plugins.ClassEventsUnique | server/plugin.py:46-61 | the events table never holds a name twice |
| Plugins.MroEventsGet | server/plugin.py:46-63 | `__plugin_events__` maps each name to the event names of the definition in the most derived class that has one, and holds nothing else |
| Plugins.DefaultEventName | server/plugin.py:57-61 | a listener without `__event_name__` and without spaces in its name is recorded under its own name only |
| Plugins.CollectEvents | server/plugin.py:46-63 | the metaclass's loop from `object` up the MRO builds exactly that events table |
| Plugins.Decorate | server/plugin.py:130-145 | the decorator raises `TypeError` exactly for a non-coroutine; otherwise the function keeps its name and event name, gains `__plugin_listener__` and, with a name, an attribute of that name |
| Plugins.InjectRun | server/plugin.py:86-88 | `_inject` makes at most one registration per pair and stops only with `AttributeError` (a missing method) or `TypeError` (a non-coroutine) |
| Plugins.EjectRun | server/plugin.py:106-108 | `_eject` makes at most one removal per pair and stops only with `AttributeError` |
| Plugins.InjectRunStops | server/plugin.py:85-89 | once a registration has failed, no later pair is attempted |
| Plugins.EjectRunStops | server/plugin.py:105-109 | once a removal has failed, no later pair is attempted |
| Plugins.RunsComplete | server/plugin.py:86-88 | with every method present, `_eject` removes each pair's method in order; with every method a coroutine, `_inject` registers each under its key in order, and neither fails |
| Plugins.UnregisterUndoesRegister | server/core/server.py:41-67 | removing a listener just registered under its own name, and not there before, restores the listener table |
| Plugins.RenamedListenerStays | server/plugin.py:88-108 | a listener registered under a key other than its `__name__` survives `_eject`, which removes by `__name__` |
| Plugins.InjectSteps | server/plugin.py:84-96 | `_inject` only registers listeners, then runs `on_load` last whether or not they failed |
| Plugins.EjectSteps | server/plugin.py:98-114 | `_eject` runs `on_unload_before` first, then only removes listeners, then runs `on_unload` last |
| Plugins.UnderPlugins | server/plugin.py:193-195 | the plugins removed with an extension are drawn from the table |
| Plugins.UnderNamesExact | server/plugin.py:193-195 | with unique names, a plugin is removed with an extension exactly when its module is under the extension's module |
| Plugins.UnloadKeepsExactly | server/plugin.py:187-197 | after unloading an extension, exactly the plugins whose module is not under it remain |
| Plugins.ActionOf | server/plugin.py:244-257 | a directory entry is skipped exactly when its name starts with `_` or its dotted name is blocked, and loaded as a plugin file exactly when it is a `.py` file that is not skipped |
| Plugins.ResolveName | server/plugin.py:210-214 | an absolute name resolves to itself; a relative one without a package is `ExtensionNotFound`, the only error |
| Plugins.RemoveSuffix | server/plugin.py:204 | `removesuffix` cuts a non-empty suffix that is there and otherwise leaves the string alone |
| Plugins.Purged | server/plugin.py:199-208 | after the finalizer the module cache holds exactly the modules other than the key that are not under the library's name less `.main`, each unchanged |
| Plugins.MainSuffixStripped | server/plugin.py:204 | unloading `<package>.main` purges the whole package |
| Plugins.CommandsAfterAppend | server/core/server.py:47-48 | two stretches of listener steps change the command table as the second applied to what the first left |
| Plugins.InjectStepsCommands | server/plugin.py:84-95 | `on_load` does not touch the command table: `_inject` changes it through its `add_listener` calls alone |
| Plugins.EjectStepsCommands | server/plugin.py:98-114 | neither unload hook touches the command table: `_eject` changes it through its `remove_listener` calls alone |
| Plugins.InjectedCommandsKept | server/core/server.py:47-48 | registrations never drop a command, and keep the command names unique |
| Plugins.InjectedCommandsCallable | server/core/server.py:47-48 | after `_inject`'s registrations, every `on_command_` key registered names a command of the table |
| Plugins.EjectedCommandsGone | server/core/server.py:59-60 | removals never add a command, keep the names unique, and leave no command of an `on_command_` listener removed |
| Plugins.PlainStepsKeepCommands | server/core/server.py:47-60 | listener steps with no `on_command_` name leave the command table as it was |
| Plugins.PluginHost.constructor | server/plugin.py:155-158 | a new host has no plugins and no extensions |
| Plugins.PluginHost.GetPlugin | server/plugin.py:176-177 | `get_plugin` finds a plugin exactly when one is stored under the name, and returns that one |
| Plugins.PluginHost.Inject | server/plugin.py:84-96 | `_inject` registers the pairs' bound methods as `InjectRun` says, runs `on_load`, and raises the first registration error after it; the command table changes by those registrations alone (`CommandsAfter` of the steps), so each `on_command_` key adds its command |
| Plugins.PluginHost.Eject | server/plugin.py:98-114 | `_eject` runs the hooks and removes the pairs' bound methods as `EjectRun` says, changing no plugin table; the command table changes by those removals alone, so each `on_command_` listener drops its command |
| Plugins.PluginHost.RemovePlugin | server/plugin.py:179-185 | an unknown name changes nothing and gives `None`; a known plugin is popped, then ejected, and returned unless ejecting raised; the command table changes as that eject's steps say, and not at all for an unknown name |
| Plugins.PluginHost.AddPlugin | server/plugin.py:164-175 | without `override`, or with it on a name not yet taken, the result and new plugin, trace, listener and command tables are `AddPluginNew`'s; with `override` on a taken name, the old plugin is popped and ejected, a failed eject ends there, otherwise the new one is injected and stored last on success, the command table following the eject's steps and then the inject's; a stored plugin is then found under its name |
| Plugins.AddPluginNew | server/plugin.py:164-175 | `add_plugin` without `override`: a taken name is `ExtensionAlreadyLoaded` with nothing changed; otherwise the result is `_inject`'s, its steps are appended to the trace, its listeners registered, the command table changed by those steps, and the plugin stored last only on success |
| Plugins.PluginHost.RunSetup | plugins/online.py:142-143 | running a `setup` that adds plugins in turn ends, result and host state with the command table, as `SetupRun` says |
| Plugins.EmptySetup | server/plugin.py:259-274 | a `setup` that adds nothing returns and leaves the host as it was |
| Plugins.NoLoopSetupFails | server/plugin.py:74-76 | without `server.loop`, the first `Plugin(server)` a `setup` builds raises, so the setup fails as `ExtensionError` and the host is unchanged |
| Plugins.OnePluginSetup | plugins/online.py:142-143 | a `setup` adding one plugin under a new name whose injection succeeds stores it last, appends its injection trace, registers its listeners and changes the command table by its registrations; under a taken name the setup fails with the host unchanged |
| Plugins.EarlierPluginsStay | server/plugin.py:259-274 | when a `setup`'s second plugin collides with its first, the setup fails but the first plugin stays added: nothing is rolled back |
| Plugins.PluginHost.ModuleFinalizer | server/plugin.py:199-208 | the finalizer drops the key from the extensions and purges the module cache as `Purged` says |
| Plugins.PluginHost.UnloadExtension | server/plugin.py:187-197 | an untracked name is `ExtensionNotFound` and changes nothing; otherwise exactly the plugins under the extension are ejected in table order and dropped, the command table changes by their eject steps, and the extension is finalized |
| Plugins.PluginHost.FromModuleSetup | server/plugin.py:259-274 | the host's plugins, trace, listeners and commands end as `SetupEffect` of the module's `setup` says; a `setup` that returns tracks the module; one missing or raising drops it from the module cache (a `KeyError` when it is not there) and reports `NoEntryPointError` or `ExtensionError` |
| Plugins.PluginHost.LoadPlugin | server/plugin.py:216-240 | a tracked name is `ExtensionAlreadyLoaded` and an unfound one `ExtensionPluginNotFound`, both changing nothing; a located module that raises while executing is dropped silently; otherwise its setup's effect on the plugin, trace, listener and command tables is `SetupEffect`'s and the extension table as `from_module_setup` says |
| Plugins.PluginHost.LoadDirectory | server/plugin.py:241-257 | loading a package directory only tracks extensions under the package |
| Plugins.PluginHost.AddOne | server/plugin.py:88 | one `add_listener` of `_inject` appends a coroutine under its key and, for an `on_command_` key, registers its command; a non-coroutine changes neither table |
| Plugins.PluginHost.RemoveOne | server/plugin.py:108 | one `remove_listener` of `_eject` removes the listener under its function's `__name__` and, for an `on_command_` name, drops its command |
| Plugins.PluginHost.InjectListeners | server/plugin.py:85-89 | the loop of `_inject` makes exactly the registrations `InjectRun` lists, in order, changes the command table by exactly those, and returns the error that stopped it |
| Plugins.PluginHost.InjectOne | server/plugin.py:87-88 | one turn of that loop registers the next method, with its command for an `on_command_` key, or ends with the error that stops the whole run and leaves the command table as it was |
| Plugins.PluginHost.EjectListeners | server/plugin.py:105-109 | the loop of `_eject` makes exactly the removals `EjectRun` lists, in order, changes the command table by exactly those, and returns the error that stopped it |
| Plugins.PluginHost.EjectOne | server/plugin.py:107-108 | one turn of that loop removes the next method, dropping its command for an `on_command_` name, or ends with the error that stops the whole run and leaves the command table as it was |
| Plugins.PluginHost.PurgeUnder | server/plugin.py:203-208 | the loop over a copy of the module cache's keys drops exactly the modules under the base, keeping the others unchanged |
| Plugins.PluginHost.RemoveUnder | server/plugin.py:193-195 | the loop over a snapshot of the plugin table removes exactly the plugins under the extension, ejecting them in table order, and the command table changes by their eject steps |
| Plugins.PluginHost.UnloadAt | server/plugin.py:194-195 | one entry of the snapshot is removed when its module is under the extension and skipped otherwise, the plugin table, trace and command table following, whether or not the eject fails |
| Plugins.PluginHost.UnloadOne | server/plugin.py:195 | removing one plugin under the extension ejects it and drops it from the table, and the command table changes by its eject steps, whether or not the eject fails |
| OnlinePlayers.RestOfLine | plugins/online.py:11 | `(.*)` takes the longest prefix without a line break, stopping at the first one |
| OnlinePlayers.DigitRun | plugins/online.py:11 | `\d+` takes the longest run of digits at the front |
| OnlinePlayers.AfterNumber | plugins/online.py:11 | after a number and a literal, what remains is the rest of the text, and the number is at least one digit |
| OnlinePlayers.ListMatch | plugins/online.py:10-12 | the `list` reply pattern matches only text starting with `There are `, and its group stays on the first line |
| OnlinePlayers.HandleMinecraft | plugins/online.py:36-40 | text the pattern does not match, in particular text not starting with `There are `, gives no names |
| OnlinePlayers.ListReplyRoundTrip | plugins/online.py:33-40 | a `list` reply of either form (before and from 1.16) gives back exactly the stripped names it lists, and `{""}` for an empty list |
| OnlinePlayers.ListMatchOfReply | plugins/online.py:10-12 | on such a reply the pattern's group is the comma-joined names after the colon |
| OnlinePlayers.NameSetOfJoin | plugins/online.py:38 | splitting comma-joined names on commas and stripping each gives the stripped names |
| OnlinePlayers.NameSetClean | plugins/online.py:38 | every name split from a player list holds no comma and has no whitespace at either end |
| OnlinePlayers.NameSetOfSpace | plugins/online.py:38 | an empty player list after the colon gives the one empty name |
| OnlinePlayers.CloseAt | plugins/online.py:13 | a `] (digits):` found at a position starts with `]` there and ends within the line |
| OnlinePlayers.LastClose | plugins/online.py:13 | the greedy `\[(.*)\]` closes at the last position where `] (digits):` follows |
| OnlinePlayers.GListMatch | plugins/online.py:13 | the `glist` pattern matches only text starting with `[` |
| OnlinePlayers.GListLineRoundTrip | plugins/online.py:42-44 | a `glist` line `[server] (n): a, b` gives back the server and the stripped players |
| OnlinePlayers.GListMatchOf | plugins/online.py:13 | the pattern splits such a line into the server name and what follows the colon |
| OnlinePlayers.Bungee | plugins/online.py:46-60 | `handle_bungee` is `None` exactly when some line starts with `Total players online:`; every key it stores is the server that the pattern finds at the start of the whole reply, and empty data gives an empty result |
| OnlinePlayers.HandleBungee | plugins/online.py:46-60 | the loop over the lines computes that result |
| OnlinePlayers.TotalLinesStep | plugins/online.py:49-52 | one more line sets `no_command` exactly when it starts with `Total players online:` |
| OnlinePlayers.AsWrittenListsFirstServerOnly | plugins/online.py:53 | because the pattern is applied to the whole reply, a reply listing two servers gives only the first one |
| OnlinePlayers.BungeeByLineStep | plugins/online.py:49-56 | applying the pattern to each line stores that line's server with its players |
| OnlinePlayers.BungeeByLineKeys | plugins/online.py:49-56 | every server stored is named by a line that matches the per-server pattern and is not a total line |
| OnlinePlayers.BungeeByLineListed | plugins/online.py:49-56 | every server named by such a line is stored |
| OnlinePlayers.HandleBungeeByLine | plugins/online.py:46-60 | the corrected loop is `None` exactly when a total line occurs and otherwise gives the line-by-line result |
| OnlinePlayers.EveryServerListed | plugins/online.py:49-56 | line by line, every server line is listed, with its own players unless a later line names the same server |
| OnlinePlayers.ByLineListsBothServers | plugins/online.py:42-56 | line by line, the two-server reply lists both servers |
| OnlinePlayers.ByLineTwo | plugins/online.py:49-56 | two server lines give both servers with their players |
| OnlinePlayers.NonBlank | plugins/online.py:119-120 | the kept names are exactly those that are not blank after stripping |
| OnlinePlayers.Filter | plugins/online.py:119-123 | only clients whose name is configured are kept |
| OnlinePlayers.FilterMeaning | plugins/online.py:119-123 | an entry is kept exactly when its name is configured, with its blank names dropped |
| OnlinePlayers.FilterDistinct | plugins/online.py:119-123 | filtering keeps clients distinct |
| OnlinePlayers.FirstNamed | plugins/online.py:128-132 | the entry found is the first whose name is the configured one, and none is found when there is no such entry |
| OnlinePlayers.OrderByNames | plugins/online.py:125-133 | the ordering loop computes `Ordered` |
| OnlinePlayers.Ordered | plugins/online.py:125-133 | ordering takes at most one client per configured name |
| OnlinePlayers.NothingConfigured | plugins/online.py:119-123 | with no configured names, a filtered result is empty |
| OnlinePlayers.OrderedSkip | plugins/online.py:127-132 | a configured name without a client adds nothing |
| OnlinePlayers.OrderedTake | plugins/online.py:128-132 | a configured name takes the first client with that name and removes it from the rest |
| OnlinePlayers.OrderedFollowsNames | plugins/online.py:125-133 | the ordered list has at most one entry per configured name, follows their order, and holds only entries of the result |
| OnlinePlayers.OrderedComplete | plugins/online.py:125-133 | when every client has a configured name, ordering loses no entry: it is a permutation |
| OnlinePlayers.QueryOrderedIsFiltered | plugins/online.py:119-133 | with `order=True`, `query` returns a permutation of the filtered result |
| OnlinePlayers.EmptyServerHasNoNames | plugins/online.py:36-38 | a server reporting no players counts as an entry without names, because the blank name is filtered |
| OnlinePlayers.Online.constructor | plugins/online.py:29-31 | a new plugin has no cached RCON clients |
| OnlinePlayers.Online.CachedClient | plugins/online.py:93-101 | invalid settings raise even when a client is cached; otherwise the cached client is reused with the table unchanged, or a fresh client with the settings and an unconnected protocol is built and appended to the insertion-ordered cache |
| OnlinePlayers.Online.QueryConnect | plugins/online.py:91-102 | one proxy's step of `query`: invalid settings raise with the cache unchanged; a new name gets a fresh client cached before `connect`, so an unreachable proxy stays cached with no transport; a cached client already connected returns doing nothing; only the client under that name is touched |
| OnlinePlayers.Online.OnUnload | plugins/online.py:137-139 | `on_unload` disconnects the cached clients in insertion order and stops with `AttributeError` at the first one whose protocol never had a connection made: those before it are CLOSED, it and the later ones are untouched |
| ReadClient.RankQueryOf | chatbridgee/chatbridgee/read.py:95-110 | a stats command gives a `show_rank` query exactly when its tokens, with `-bot` and `-all` removed, are four; the flags are whether the command as received contains `-bot` and `-all` |
| ReadClient.BotQueryRead | chatbridgee/chatbridgee/read.py:96-110 | the Discord bot's `stats A B` or `stats rank A B` with two plain words is read back as the query for class `A` and target `B`, without flags |
| ReadClient.QueryTokens | chatbridgee/chatbridgee/read.py:96-98 | `stats rank A B` splits into its four words |
| ReadClient.FourWords | chatbridgee/chatbridgee/read.py:97 | four words joined by single spaces split back into the four |
| ReadClient.RankedOf | chatbridgee/chatbridgee/read.py:112-121 | no lines, or a last line of fewer than two words, is `IndexError`, and a second word `int()` refuses is `ValueError`; otherwise the first line is the stats name, the lines strictly between first and last are the data and the last line's second word is the total |
| ReadClient.ExtraCommand | chatbridgee/chatbridgee/read.py:87-123 | the outcome is code -1 exactly for a command not starting with `stats `, 2 exactly when `stats_helper` is missing, 1 exactly when the tokens do not unpack or `show_rank` returns `None`, and 0 exactly when the rank text parses |
| ReadClient.StrList | chatbridgee/chatbridgee/read.py:118 | the data lines become a list of strings, one per line, in order |
| ReadClient.CodeUpdate | chatbridgee/chatbridgee/read.py:88-93 | setting the code replaces the initial -1 in place, after `command` |
| ReadClient.RankedUpdates | chatbridgee/chatbridgee/read.py:114-121 | the code-0 update sets the code and appends `stats_name`, `data` and `total` in that order |
| ReadClient.FreshResultKeys | chatbridgee/chatbridgee/read.py:114-121 | the keys the update adds differ from each other and from the initial two |
| ReadClient.OutcomeOfRaw | chatbridgee/chatbridgee/read.py:112-121 | once a rank text came back, the outcome is what parsing it gives |
| ReadClient.OnExtraCommand | chatbridgee/chatbridgee/read.py:87-125 | the handler emits `cmd_callback` with the result dictionary of the outcome, or lets the parsing exception escape without emitting |
| ReadClient.ReplyUnderstood | chatbridgee/chatbridgee/read.py:77-86 | the Discord bot reads each emitted code as meant: -1 no answer, 1 unknown stats, 2 no stats helper, 0 the rank table with its stats name and total |
| ReadClient.CodeReply | chatbridgee/chatbridgee/read.py:88-93 | a reply without a rank table carries the code the bot reads back |
| ReadClient.RankedReply | chatbridgee/chatbridgee/read.py:114-121 | the code-0 reply is read as the rank table with its stats name and total |
| ReadClient.RankedAt | chatbridgee/chatbridgee/read.py:114-121 | each added key of the code-0 reply is found at its own position |
| ReadClient.Shown | chatbridgee/chatbridgee/read.py:49-75 | every handler names the event's server, and only joins and leaves pass `set_start=False` |
| ReadClient.IndexOf | chatbridgee/chatbridgee/read.py:61 | the index found is the first occurrence of the character, and none is found when it is absent |
| ReadClient.ChatRoundTrip | chatbridgee/chatbridgee/read.py:58-61 | a chat text `<player> content` gives back its player and content when the player name holds no `>` |
| ReadClient.JoinAndLeaveDiffer | chatbridgee/chatbridgee/read.py:63-75 | a player's join and leave texts on one server differ |
| StyleFormat.Color | server/utils/format.py:84-86 | a member's `color` is -1 exactly when it is a format rather than a color |
| StyleFormat.AnsiDashesToSemicolons | server/utils/format.py:88 | a non-empty ANSI spec becomes `ESC [` with its dashes turned into semicolons, then `m` |
| StyleFormat.FormatsAndColors | server/utils/format.py:96-102 | `formats()` lists exactly the format members and `colors()` exactly the others |
| StyleFormat.FormatListed | server/utils/format.py:96-102 | a format is listed by `formats()` and not by `colors()` |
| StyleFormat.ColorListed | server/utils/format.py:96-102 | a color is listed by `colors()` and not by `formats()` |
| StyleFormat.FormatNamesDistinct | server/utils/format.py:52-56 | the formats' lower-case names differ from each other and from `color` |
| StyleFormat.FirstColor | server/utils/format.py:188-192 | the color chosen is the first in enumeration order whose mark occurs in the description, and none is chosen when no mark occurs |
| StyleFormat.FormatPartGet | server/utils/format.py:183-186 | a format's name maps to `True` exactly when its mark occurs in the description, and other names are absent |
| StyleFormat.StyleMeaning | server/utils/format.py:179-194 | `parse_style` sets each format whose mark occurs to `True` and `color` to the first color whose mark occurs, and to nothing else |
| StyleFormat.ParseStyle | server/utils/format.py:179-194 | the two loops compute that style and the ANSI string |
| StyleFormat.FirstColorIs | server/utils/format.py:188-192 | the first color whose mark occurs is the one chosen |
| StyleFormat.SplitDescFacts | server/utils/format.py:161-166 | the description has no space, and a message starting with a space gets the description `w` and the rest as its text |
| StyleFormat.SplitDescRoundTrip | server/utils/format.py:161-166 | a description without spaces and a text, joined by a space, are split back into the two |
| StyleFormat.SplitDescNoSpace | server/utils/format.py:161-166 | a message without spaces is all description and no text |
| StyleFormat.Console | server/utils/format.py:169-176 | the console text always ends with the reset sequence |
| StyleFormat.WhiteStyle | server/utils/format.py:14 | a description made only of `w` styles white |
| StyleFormat.LeadingSpaceIsWhite | server/utils/format.py:169-176 | a message starting with a space is shown in white, followed by its text and a reset |
| StyleFormat.FormatPartNone | server/utils/format.py:183-186 | without any format mark, no format is set and no ANSI is added |
| StyleFormat.FirstMark | server/utils/format.py:142-151 | the mark taken is the first in `mark_data` order that occurs in the description, and none when none occurs |
| StyleFormat.BuildWellFormed | server/utils/format.py:125-155 | the component list always starts with `""` followed only by objects |
| StyleFormat.Build | server/utils/format.py:125-155 | with `no_mark` there is one original per part and one component per part after the leading `""` |
| StyleFormat.StepWellFormed | server/utils/format.py:127-153 | one more message keeps the component list well formed |
| StyleFormat.Step | server/utils/format.py:127-153 | one message only extends the ANSI text and the originals, and with `no_mark` adds exactly one original and one component |
| StyleFormat.AddTextWellFormed | server/utils/format.py:142-153 | attaching a text keeps the component list well formed |
| StyleFormat.AddText | server/utils/format.py:142-153 | attaching a text keeps every component but the last, ends with an object, adds at most one component, and with `no_mark` appends exactly one |
| StyleFormat.NestedAloneUnchanged | server/utils/format.py:131-135 | a message made of one nested message has that message's components, ANSI and originals |
| StyleFormat.NoMarkOneComponentEach | server/utils/format.py:128-153 | with `no_mark` every part adds exactly one component, and the originals are the parts each with a leading space |
| StyleFormat.NoMarkStep | server/utils/format.py:128-153 | with `no_mark` one part adds one component and its spaced text to the originals |
| StyleFormat.MarkAttachesToLast | server/utils/format.py:142-151 | a marked message adds no component: it leaves the earlier ones unchanged and puts its event, carrying the text, on the last |
| StyleFormat.EventKeyNotStyle | server/utils/format.py:105-116 | an event key is never a style key, so the style update cannot overwrite it |
| StyleFormat.AddTextMarked | server/utils/format.py:146-151 | a marked text updates the last component with the event and the style |
| StyleFormat.LastGetsEvent | server/utils/format.py:147-150 | after the update the last component carries the event with the text as its value |
| StyleFormat.MarkEventOnLast | server/utils/format.py:142-151 | a marked message leaves the count unchanged and sets the event on the last component |
| StyleFormat.StyleKeys | server/utils/format.py:179-194 | the style sets only format names and `color` |
| StyleFormat.UpdateAllGet | server/utils/format.py:150 | after `dict.update`, a key updated last has the value it was updated to |
| StyleFormat.PlainTextAppends | server/utils/format.py:152-153 | an unmarked message appends one component with its text and its style |
| StyleFormat.NewFormatMessage | server/utils/format.py:119-155 | the constructor's loop builds exactly that message |
| StyleFormat.AttachText | server/utils/format.py:142-153 | the inner loop over the marks attaches the text as described |
| StyleFormat.FirstMarkIs | server/utils/format.py:142-151 | the first mark present in `mark_data` order is the one taken |
| DiscordHelpers.EscapeWith | plugins/discord/client.py:378-381 | escaping adds exactly one character per escaped character |
| DiscordHelpers.FixMsg | plugins/discord/client.py:378-381 | the seven replacements of `fix_msg`, backslash first, escape each listed character exactly once |
| DiscordHelpers.EscapeNothing | plugins/discord/client.py:379-380 | escaping no characters leaves the text alone |
| DiscordHelpers.EscapeOrderFacts | plugins/discord/client.py:379 | each listed character is replaced only once, and the backslash is replaced before all others |
| DiscordHelpers.ReplaceStep | plugins/discord/client.py:379-380 | one more replacement after the earlier ones escapes one more character without escaping the added backslashes again |
| DiscordHelpers.UnescapeEscape | plugins/discord/client.py:378-381 | removing the backslash in front of each escaped character gives the original text back |
| DiscordHelpers.FixMsgFacts | plugins/discord/client.py:378-381 | the escaped message grows by one character per escaped character, and it unescapes back to the original |
| DiscordHelpers.StatsQuery | plugins/discord/client.py:299-301 | the query always starts with `stats rank `, and reading `args[0]` fails exactly when there are no arguments |
| DiscordHelpers.StatsQueryRank | plugins/discord/client.py:300 | a leading `rank` is dropped once and the other arguments are kept in order |
| DiscordHelpers.RankRow | plugins/discord/client.py:313 | a data line unpacks only when it is a string that is exactly three space-separated fields |
| DiscordHelpers.RankTable | plugins/discord/client.py:311-317 | the three columns have one entry per data line |
| DiscordHelpers.RankColumns | plugins/discord/client.py:309-317 | the loop appending to the three lists computes that table |
| DiscordHelpers.RankTableKeepsError | plugins/discord/client.py:311-313 | once a line fails, the whole command fails with that error |
| DiscordHelpers.RankRowRoundTrip | plugins/discord/client.py:311-317 | a line of three space-free fields gives those fields, the player escaped |
| DiscordHelpers.RowFields | plugins/discord/client.py:313 | three space-free fields joined by spaces split back into the three |
| DiscordHelpers.StatsReplyOf | plugins/discord/client.py:307-337 | the rank embed is sent only for code 0, with the rows of iterating `data` (list items, a string's characters, a dict's keys) and a numeric `total`; a non-numeric `total` fails in `format_number`; the unknown-stats reply is sent exactly for code 1 and the no-stats-helper reply exactly for code 2 |
| DiscordHelpers.Iterated | plugins/discord/client.py:311 | `for line in data`: a list gives its items, a string its characters, a dict its keys, and anything else is `TypeError` |
| DiscordHelpers.OneCharRow | plugins/discord/client.py:313 | a one-character line does not unpack into three fields: `ValueError` |
| DiscordHelpers.CharLinesFail | plugins/discord/client.py:311-313 | the rows of a non-empty string's characters fail with `ValueError` |
| DiscordHelpers.StringData | plugins/discord/client.py:307-330 | string `data` gives `ValueError` when non-empty, and an empty rank table when empty and the total is numeric |
| DiscordHelpers.DictData | plugins/discord/client.py:307-313 | dict `data` is iterated by its keys, and a key that is not a rank line fails the reply with its error |
| DiscordHelpers.NonNumericTotal | plugins/discord/client.py:326-328 | with valid rows, a `total` that is not a number fails the reply as `TypeError` in `format_number` |
| DiscordHelpers.CodeZeroReply | plugins/discord/client.py:307-330 | a code-0 answer with a list of data lines that parse is read as the rank table with its stats name and total |
| DiscordHelpers.MissingCodeIsTwo | plugins/discord/client.py:307 | an answer without a code is read as "stats_helper not enabled" |
| DiscordHelpers.StyleMessage | plugins/discord/client.py:154-170 | a message gives one formatted message for its text when non-empty and one for its attachments when there are any |
| DiscordHelpers.ContentMessage | plugins/discord/client.py:156-162 | a text becomes one component: `\:` is cut off the front, any other text gets a leading space, and `no_mark` adds one more |
| DiscordHelpers.AttachmentLinkOpensUrl | plugins/discord/client.py:163-169 | the attachment link opens the message's jump URL when clicked |
| DiscordHelpers.LinkOpensUrl | plugins/discord/client.py:165-168 | a caption followed by an `@` part puts the open-URL event on the caption's component |
| DiscordHelpers.LinkStep | plugins/discord/client.py:167 | an `@` part after an object component puts the open-URL event on it |
| DiscordHelpers.OpenUrlEntry | plugins/discord/client.py:167 | the `@` mark is an open-URL click event carrying the URL |
| DiscordHelpers.CaptionComponent | plugins/discord/client.py:166 | the caption alone makes one object component |
| MarkdownConvert.CloseFrom | chatbridgee/utils/format.py:11-19 | the lazy `+?` closes at the nearest closing delimiter, one not followed by another delimiter character, and none is found when there is none |
| MarkdownConvert.DropResets | chatbridgee/utils/format.py:7 | removing the leading run of resets leaves no reset at the front |
| MarkdownConvert.DcToMcFormatting | chatbridgee/utils/format.py:23-33 | the loop over the table and the final collapse compute `Converted` |
| MarkdownConvert.SubNoDelim | chatbridgee/utils/format.py:31 | where no delimiter occurs, a substitution copies the text |
| MarkdownConvert.NoCharUnchanged | chatbridgee/utils/format.py:31 | text without the delimiter's character is untouched by its pass |
| MarkdownConvert.EscapedOpeningCopied | chatbridgee/utils/format.py:11-19 | the `(?<!\\)` look-behind keeps an opening right after a backslash from matching |
| MarkdownConvert.SpanReplaced | chatbridgee/utils/format.py:24-31 | a span without the delimiter character between two delimiters becomes the code, the span and a reset |
| MarkdownConvert.CloseFromFirst | chatbridgee/utils/format.py:11-19 | the first closing delimiter after a position is the one the match takes |
| MarkdownConvert.EscapedSpanKept | chatbridgee/utils/format.py:11-19 | a backslash before a delimited span keeps the whole text as it is |
| MarkdownConvert.SubNoMatch | chatbridgee/utils/format.py:31 | where no match starts, a substitution copies the text |
| MarkdownConvert.CollapseHead | chatbridgee/utils/format.py:33 | the collapse keeps the first character and whether the text starts with a reset |
| MarkdownConvert.Collapse | chatbridgee/utils/format.py:33 | collapsing reset runs never lengthens the text |
| MarkdownConvert.CollapseNoDouble | chatbridgee/utils/format.py:7-33 | after the collapse no two resets are adjacent |
| MarkdownConvert.CollapseFixes | chatbridgee/utils/format.py:33 | text without adjacent resets is left as it is |
| MarkdownConvert.CollapseIdempotent | chatbridgee/utils/format.py:33 | collapsing twice is collapsing once |
| MarkdownConvert.PlainTextOnlyCollapsed | chatbridgee/utils/format.py:23-33 | text without `~`, `_` or `*` only has its reset runs collapsed |
| MarkdownConvert.ApplyPrefixPlain | chatbridgee/utils/format.py:27-31 | passes over text without delimiter characters change nothing |
| MarkdownConvert.ApplyRange | chatbridgee/utils/format.py:27-31 | passes that leave the text as it is keep it through the part of the table they cover |
| MarkdownConvert.PatternOrder | chatbridgee/utils/format.py:9-20 | a pattern earlier in the table than another has a different character or is its double |
| MarkdownConvert.NoDelimInSpan | chatbridgee/utils/format.py:11-19 | a plain span between one pattern's delimiters holds no delimiter of a different character, nor the double of its own |
| MarkdownConvert.SpanConverted | chatbridgee/utils/format.py:9-33 | a span of plain text between any table pattern's delimiters comes out as that pattern's code, the text and one reset |
| MarkdownConvert.OwnPass | chatbridgee/utils/format.py:27-31 | the pass of a pattern after passes that left the text alone gives that pass's result |
| MarkdownConvert.PatternCode | chatbridgee/utils/format.py:9-20 | every code of the table is `§` and one of the style letters `m`, `o`, `n`, `l` |
| MarkdownConvert.EarlierPassesKeep | chatbridgee/utils/format.py:27-31 | the patterns before a span's own leave the span alone |
| MarkdownConvert.LaterPassesKeep | chatbridgee/utils/format.py:27-31 | the patterns after a span's own leave the converted span alone |
| MarkdownConvert.SpanResultFixed | chatbridgee/utils/format.py:33 | a converted span has its only reset at the end, so the collapse keeps it |
| DiscordScanner.DcToMcFormatting | test.py:11-65 | the scanning loop computes `Scanned`, reading the text once from the front |
| DiscordScanner.ScanOne | test.py:38-63 | one pass of the loop body moves forward by one or two characters and emits what `Scanned` emits there |
| DiscordScanner.ScannedAt | test.py:38-63 | one scan step: an escaped character is copied, a doubled `*`, `_` or `~` becomes `§l`, `§n` or `§m`, a lone `*` or `_` becomes `§o`, anything else is copied |
| DiscordScanner.ScannedLength | test.py:37-65 | the scan emits at most two characters per input character |
| DiscordScanner.PlainTextUnchanged | test.py:37-65 | text without `\`, `*`, `_` or `~` comes back unchanged |
| DiscordScanner.EscapeAll | test.py:42-45 | escaping every character doubles the length |
| DiscordScanner.EscapedRoundTrip | test.py:42-45 | text with a backslash before every character scans back to the text |
| DiscordScanner.TrailingBackslashAndTilde | test.py:39-63 | a trailing backslash emits nothing, and a lone `~` is copied |
| DiscordScanner.TripleAsterisk | test.py:47-61 | pairs are tried before singles, so `***` is bold followed by italic |
| DiscordScanner.NeverInsertsReset | test.py:24-65 | `checkReset` is never called, so the scanner never writes a reset: with no `§` in the input, every `§` of the output starts a style code |
| DiscordScanner.PrependKeeps | test.py:44-63 | a style code or a character other than `§` put in front keeps that property |
| Config.ParseTypeSound | config.py:58-120 | whatever `parse_type` returns is a value of the hint it was given |
| Config.ParseType | config.py:58-120 | `Any`, `Literal` and every basic hint but `float` return the data itself; `list[T]` keeps a list's length; an unsupported hint and an empty `Union` are `TypeError` |
| Config.ParseBasic | config.py:76-83 | a basic hint returns an instance of it, the data itself unless the hint is `float`, and fails only with `TypeError` |
| Config.ParseUnion | config.py:85-91 | a `Union` that fails with an error it catches fails with `TypeError` |
| Config.ParseList | config.py:93-97 | `list[T]` returns as many elements as it was given |
| Config.ParseDict | config.py:99-106 | `dict[K, V]` never ends with fewer entries than it started with, and adds at most one entry per given entry |
| Config.ParseUnionSound | config.py:85-91 | a value a `Union` returns conforms to the `Union` |
| Config.ParseListSound | config.py:93-97 | every element `list[T]` returns conforms to `T` |
| Config.DictSetConforms | config.py:102-105 | storing a conforming key and value keeps a dict's entries conforming |
| Config.ParseDictSound | config.py:99-106 | every key and value `dict[K, V]` returns conforms to `K` and `V` |
| Config.ParseListElementwise | config.py:93-97 | `list[T]` succeeds exactly when every element converts, and keeps the length, the order and each element's conversion |
| Config.ParseUnionFirstSuccess | config.py:85-91 | a `Union` succeeds exactly when some alternative succeeds after the earlier ones raised a caught error, and returns that alternative's result |
| Config.UnionWitness | config.py:85-91 | a successful `Union` has a first succeeding alternative whose result it is |
| Config.UnionFromFirst | config.py:85-91 | when an alternative is the first to succeed, the `Union` gives its result |
| Config.EnumNamespaceKeyErrorEscapesUnion | config.py:108-111 | a string naming a non-member entry of an enum's class namespace makes the enum raise `KeyError`, which the `Union` does not catch, so a later `str` alternative that would accept it is never tried |
| Config.LiteralMismatchEscapesUnion | config.py:85-118 | a string outside a first `Literal` raises `AttributeError`, which the `Union` does not catch, so a later matching `Literal` is never tried |
| Config.NumericConversions | config.py:76-83 | an `int` converts to `float`, a `bool` passes as an `int` and converts to `float`, and a `float` is no `int` |
| Config.PublicHints | config.py:31-36 | `get_hint_type` keeps exactly the hints whose name does not start with `_`, in order, and keeps names unique |
| Config.PublicKwargs | config.py:43 | the kwargs kept are exactly those whose name does not start with `_` |
| Config.Lookup | config.py:45 | `getattr` finds a value exactly when the instance or the class has one |
| Config.RunFrame | config.py:42-52 | a completed `_set_attr` leaves every field no hint names as it was |
| Config.RunRemaining | config.py:42-52 | a completed `_set_attr` returns exactly the public kwargs no hint names, with their values |
| Config.RunStored | config.py:44-50 | a completed `_set_attr` has stored every hinted field as the conversion of its kwarg or its default |
| Config.RunErrSticks | config.py:44-50 | once a hint fails, the result is that failure |
| Config.Untouched | config.py:44-50 | a run stopped at any hint has changed no field that no hint names |
| Config.ApplyHints | config.py:44-52 | the loop over the hints computes `SetAttrRun` and changes no field no hint names, even when it fails |
| Config.RunNext | config.py:44-50 | the run over one more hint is one more step |
| Config.FailAt | config.py:44-50 | a hint that fails ends the run with its error, with fields no hint names untouched |
| Config.StoredKept | config.py:50 | storing another field leaves a stored field as it was |
| Config.ConfigData.constructor | config.py:24 | a fresh instance has the class's hints and defaults and no instance attributes yet |
| Config.ConfigData.SetAttr | config.py:42-52 | `_set_attr` ends as `SetAttrRun` says, returning the remaining kwargs, and changes no field no public hint names |
| Config.ConfigData.Init | config.py:25-27 | an error from `_set_attr` propagates; otherwise every public hinted field holds its converted kwarg or default, fields no public hint names are untouched, and `__init__` succeeds exactly when no public kwarg is left over, else `TypeError` |

## Left out

- Asyncio scheduling, tasks, `wait_for` timeouts, locks and the socket.io/aiohttp wiring are concurrency and I/O. Dispatch is modelled as an ordered call plan, and waits as waiter-table entries.
- The AES cipher and JSON decoding are external formats. They are parameters (`encrypt`, `decrypt`, `loads`), and no property of them is assumed.
- `inspect.signature`, keyword arguments and `**kwargs` are not modelled. Each listener carries a positional-arity descriptor instead.
- `find_spec`, `exec_module` and `import_module` go through the import system. They are replaced by a module map and an oracle tree of load results, and parent-package import is not modelled.
- `Plugins.PluginHost.UnloadExtension`: states the new table, trace, extensions and module cache only on success. After a plugin's eject fails part way, the state is left unstated.
- `Plugins.PluginHost.RemoveUnder`: like `UnloadExtension`, states its result only on success.
- `Hub.CheckUser`: whether the user-record type accepts a `name` field is the parameter `recordTakesName`. The `UserAuth` in server/core/config.py:16-18 has no such field. As shown, the `TypeError` is swallowed and no user ever logs in (`Hub.CheckUserAsShownNeverAdmits`). This mismatch is respected, not corrected.
- Dispatch recursion is bounded by a depth standing for Python's recursion limit. Running out of depth is modelled as `RecursionError`.
- Listeners that add or remove listeners while a dispatch runs are not modelled. The plan is taken from the table as it stood when dispatch began.
- `events_structure` is shared at class level in the source. The model gives each client its own copy.
- Inheritance (the `PluginMixin` mix-in into the server, `BaseClient` extending `Events`) is modelled by composition.
- `format_number`'s `.2f` text and the stripping of trailing zeros are floating-point formatting. Only the scaling and the suffix choice are modelled.
- `FormatMessage`: aliasing of the shared component dictionaries, `__repr__` and the `json()` text are left out. The component values are modelled.
- The canned replies in plugins/discord/client.py:187-192 are left out because the choice is random.
- The Discord bot's author filter (plugins/discord/client.py:180-181), the `on_message` I/O, webhooks and the stats embed belong to the Discord library. Only the pure helpers are modelled.
- `\d` in the player-list patterns is read as an ASCII digit. Python's Unicode digits are not modelled.
- The RCON I/O of `query`'s loop is left out. The parsers, the client cache, and the filter and ordering tail are modelled. The loop reads the configuration key `minecraft_GList_match`, while the defaults define `bungeecord_list`. The list of proxies is therefore a parameter.
- `on_chat`'s `RTextJSON` rendering in the read client is a foreign library. Only the message templates are modelled.
- `query` builds the fallback `RconClient` even when the cache already holds one. `OnlinePlayers.Online.CachedClient` keeps that construction's errors, but the unused object is not modelled.
- Dafny characters cannot be lone surrogates, so Python strings holding them are not modelled.
- RCON stream fragmentation is not modelled: each `data_received` call is given one whole packet.
- `from_server` of chatbridgee/chatbridgee/plugin.py is not part of this model.
- Log rotation, the file-backed configuration, and the MCDR, client and demo entry points are I/O or wiring with no logic of their own.
- No server class defines `loop`, so `server.loop` raises `AttributeError` in `Plugin.__init__` (server/plugin.py:76), in an RCON-configuring `Context.__init__` (server/context.py:40) and in `extra_command` (server/context.py:60). The model makes the attribute's presence the flag `Hub.BaseServer.hasLoop`, so both the shipped case (absent) and a server that sets it are covered.
- `Plugin.__init__` loads `__plugin_config__` from a file (server/plugin.py:81-82). That is file I/O and is not modelled.
- `_write` of mc_rcon.py takes `_lock` before writing, and a write that raises leaves the lock held. Locks are not modelled, so a later write waiting forever is not captured.
- Plugins.PluginHost.LoadDirectory: states only that the walk tracks extensions under the package. The plugin table, trace, listeners and command table after a whole walk are left unstated; each entry's `LoadPlugin` states them.
- Config.ParseUnion: an exhausted `Union` is `TypeError`. The message also reads `__name__` of the hint and of each alternative; for an `X | Y` hint and some generic alternatives that read may raise `AttributeError` instead, which is not modelled.
- PyStr.ParseInt: accepts surrounding whitespace, one sign and ASCII digits with single underscores between them. Python's `int()` also accepts the other Unicode decimal digits, which are not modelled.
- PyValues.PyEq: numbers compare by value, but lists and dicts compare structurally, so `[1] == [1.0]` is true in Python and false here. Listeners are likewise compared by their descriptor, not by object identity, in `remove_listener`.
- Hub.BaseServer.Connect: the log line at server/core/server.py:161 reads `user['name']`, which is a `TypeError` for the `NamedTuple` user records of server/core/config.py. The model admits a user when the record takes a name (`recordTakesName`); with the shipped record no login reaches that line (`Hub.CheckUserAsShownNeverAdmits`).

## Findings

| source | as written | input that shows it | evidently intended | confidence | as-written member | corrected member |
|---|---|---|---|---|---|---|
| server/utils/chat_bridge.py:48-54 | the body loop reads until `remaining` bytes arrived and never checks for an empty read | a header announcing 10 bytes followed by 3 bytes, after which the peer closes | stop on an empty read and report the frame as incomplete | not executed | Transport.TruncatedBodyNeverFinishes | Transport.ReadBody |
| mc_rcon.py:84-87 | `execute` registers its waiter under the counter `_id` but writes packet id 0 | a second `execute` with the counter at 1; the reply carries id 0 | write the packet under the same id the waiter is keyed by | not executed | Rcon.AsWrittenLaterRepliesMissTheirWaiter | Rcon.RepliesReachTheirWaiter |
| mc_rcon.py:67 | the body is `data[8:-1]`, which drops only one of the two trailing NUL bytes | any reply; the body `"ok"` parses as `"ok\0"` | `data[8:-2]`, as server/utils/mc_rcon.py:77 has it, giving back the body that was sent | not executed | Rcon.AsWrittenBodyKeepsNul | Rcon.RoundTrip |
| plugins/online.py:53 | `handle_bungee` matches the player-list pattern against the whole response instead of the current line | `"[A] (1): x\n[B] (1): y"` lists only server A | match each line, so every server's list is collected | not executed | OnlinePlayers.AsWrittenListsFirstServerOnly | OnlinePlayers.ByLineListsBothServers |
