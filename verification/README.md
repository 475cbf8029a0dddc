# CraftIP: the tunnel, verified

CraftIP lets a Minecraft server be reached through a proxy. A client beside the
Minecraft server keeps one framed TCP connection to the proxy; the proxy
registers it under a hostname, and the traffic of all Minecraft players who ask
for that hostname is multiplexed over this connection. This project models that
tunnel and proves what it keeps.

`dafny verify dfyconfig.toml` checks everything.

## How it is built

Four layers, each in the form the program has. Code that reads, writes and
updates things is modelled as classes and methods with loops; each of them is
proved against a function, and the results are lemmas about these functions.
Tasks that run beside each other are steps of a state machine over
first-in-first-out queues, and results about them hold for every sequence of
steps, in whatever order the tasks run.

1. **Bytes.** `Basics`, `Unicode`, `Bytes`, `Cursor`, `ControlCodec`,
   `SocketPackets`: integers of the machine, UTF-8 and UTF-16 (section 4 of
   RFC 3629 and section 2 of RFC 2781), VarInts, packet bodies, frames on a
   stream.
2. **The first packet of a player.** `Minecraft`, `FirstPacket`: three packet
   grammars with the verdicts "needs more", "this packet" and "never", and the
   loop that runs them again on a growing buffer.
3. **The multiplexer.** `Slots`, `Multiplexer`, `Writers`, `Readers`,
   `Endpoints`: the two tables of 255 slots, both sides' tasks and queues as one
   machine, and the loops themselves. `Lifecycle`, `Isolation`, `DownStream`, `UpStream`,
   `LateData`, `Endings`, `FarSide`, `Acks` and `Wire` hold the results.
4. **Sessions.** `Registers`, `Sessions`, `ProxyClients`: the register, any
   number of sessions over it, and both halves of the handshake. A session is
   opened by an honest client or by a stranger who may send anything.
   `Registration`, `Handshake`, `Completion` and `HandshakeWire` hold the
   results.

Key pairs, signatures and the digest behind a hostname are a parameter,
`Sessions.Crypto`. Where a result needs that a signature verifies under its own
key, or that hosts are written in base 36, it says so in a `requires`. What the
sockets, the random generator and the operating system do is nondeterministic:
a session may fail wherever the program waits, and every queue may be served at
any time.

## What does not hold

Seven promises one might read into the program are false of the code. Each is
shown false by an input or a run, next to the exact condition or the regime in
which it holds.

- A printed handshake is not always accepted: the length field is compared with
  a position that also depends on the next-state field, and a body of 254 bytes
  is taken for a legacy ping. `Minecraft.HandshakeRoundTrip` is an equivalence;
  `Minecraft.RefusedLogin` and `Minecraft.RefusedAsLegacyPing` are inputs.
- A legacy ping with a hostname outside ASCII is refused, because UTF-8 bytes are
  counted where the packet counts UTF-16 units. `Minecraft.OldPingRoundTrip` is
  an equivalence; `Minecraft.RefusedPing` is an input.
- A frame carries 32765 bytes of data, but the first data of a player has no
  such bound. `Wire.FirstDataLimit` is an equivalence; `Wire.LongLogin` is a
  family of inputs.
- The down stream does not keep players apart once the Minecraft server ends
  connections: a player's data can be given to the next player's connection under
  the same id (`LateData.DataReachesNextConnection`).
  `DownStream.GivenToOwnerExactly` says exactly when a chunk goes to the wrong
  connection, in every run, and `DownStream.DownStreamInOrder` what holds when none
  does. While nothing ends or fails on the far side none does
  (`DownStream.RegimeReadsOwn`), and then even more holds
  (`Isolation.DownStreamIsolation`).
- One player's trouble is every player's. `Endings.SessionEndsExactly` gives the
  three ways in which a session ends, an equivalence over all runs. A connection to the Minecraft
  server that cannot be made always ends the session
  (`Endings.FailedConnectEndsSession`), one that the Minecraft server ends may
  (`FarSide.FarEndingCanEndSession`, `Isolation.ReuseLosesAConnection`).
- The up stream does not keep players apart even while nothing ends on the far
  side: data of a player's connection can be read when its id belongs to the next
  player already (`LateData.LateDataReachesNextPlayer`). `UpStream.DeliveredToOwnerExactly` says
  exactly when a chunk goes to the wrong player, in every run, and
  `UpStream.UpStreamIsolation` what holds when none does.
- Cleaning a hostname is not idempotent. `Registers.CleanTwice` is an
  equivalence; `Registers.TwoLabels` is an input.

The comment on `remove_by_id` says that it returns true if the entry existed; the
code returns true for every id in range, and the model follows the code.

## Model

| member | source | states |
|---|---|---|
| `Cursor.VarintVerdicts` | craftip/crates/protocol/src/cursor.rs:27-45 | on any bytes: Ok(v) is the sum of the low seven bits times 128^i, modulo 2^32 and read as two's complement; None exactly when fewer than five bytes are there and all continue; Err exactly when the first five all continue |
| `Basics.Casts` | craftip/crates/protocol/src/cursor.rs:49 | casts keep the value modulo the width, and a negative length becomes a huge one |
| `Basics.BigEndian32` | craftip/crates/protocol/src/minecraft.rs:137-139 | multi-byte numbers are read most significant byte first |
| `Cursor.Utf8StringVerdicts` | craftip/crates/protocol/src/cursor.rs:48-61 | on any bytes: a string is accepted exactly with the bytes that encode it and refused exactly when they encode none; None exactly while the length or the bytes are not all there |
| `Cursor.Utf16StringVerdicts` | craftip/crates/protocol/src/cursor.rs:63-83 | the same for the 16-bit count and its units, which are asked for with one byte more; a refusal resets the cursor |
| `Cursor.VarintRoundTrip` | craftip/crates/protocol/src/cursor.rs:100-111 | every i32, written anywhere in a buffer, is read back and exactly its bytes are consumed |
| `Cursor.VarintMinimal` | craftip/crates/protocol/src/cursor.rs:100-111 | no accepted byte sequence for a value is shorter than the written one |
| `Cursor.EncodeVarintAtMostFive` | craftip/crates/protocol/src/cursor.rs:102-110 | a written VarInt takes one to five bytes |
| `Cursor.PutVarint` | craftip/crates/protocol/src/cursor.rs:100-111 | the writer loop appends the canonical base-128 form and always leaves by its return within five rounds |
| `Cursor.PutUtf8String` | craftip/crates/protocol/src/cursor.rs:113-116 | appends the UTF-8 bytes behind their length, truncated to 32 bits as the cast does |
| `Cursor.ReadCursor.GetVarint` | craftip/crates/protocol/src/cursor.rs:27-45 | the bit-shifting loop returns the verdict, and leaves the cursor, as the arithmetic reading prescribes |
| `Cursor.ReadCursor.GetUtf8String` | craftip/crates/protocol/src/cursor.rs:48-61 | same verdict and position as the specification on any bytes, negative lengths included; no read out of bounds |
| `Cursor.ReadCursor.GetUtf16String` | craftip/crates/protocol/src/cursor.rs:63-83 | same verdict and position as the specification on any bytes; no read out of bounds |
| `Cursor.ReadCursor.MatchBytes` | craftip/crates/protocol/src/cursor.rs:85-96 | matches exactly the bytes at the cursor and moves only on a match |
| `Cursor.Utf8StringRoundTrip` | craftip/crates/protocol/src/cursor.rs:48-61 | every string shorter than 2^31 bytes is read back and nothing behind it is touched |
| `Cursor.Utf16StringRoundTrip` | craftip/crates/protocol/src/cursor.rs:63-83 | every string that fits the 16-bit count is read back, surrogate pairs included, once one more byte has arrived (the reader waits for it) |
| `Cursor.OrDigit` | craftip/crates/protocol/src/cursor.rs:37-39 | or-ing in a shifted 32-bit digit is adding it to the base-128 sum modulo 2^32 |
| `Unicode.Utf8RoundTrip` | craftip/crates/protocol/src/cursor.rs:48-61 | decoding the UTF-8 encoding of any string gives the string |
| `Unicode.Utf8Exact` | craftip/crates/protocol/src/cursor.rs:57-58 | only the encoding of the result itself is accepted: no overlong or surrogate form |
| `Unicode.EncodedByTheStandards` | craftip/crates/protocol/src/cursor.rs:57-80 | the encodings of one character of each length, byte by byte |
| `Unicode.Utf16Exact` | craftip/crates/protocol/src/cursor.rs:72-82 | only the encoding of the result itself is accepted: no unpaired surrogate |
| `Unicode.Utf16RoundTrip` | craftip/crates/protocol/src/cursor.rs:72-82 | decoding the UTF-16 encoding of any string gives the string |
| `Unicode.Utf8AtLeastUtf16` | craftip/crates/protocol/src/minecraft.rs:132-134 | UTF-8 is never shorter in bytes than UTF-16 in units, and equally long exactly for ASCII |
| `Minecraft.New` | craftip/crates/protocol/src/minecraft.rs:98-112 | the dispatch of the three grammars on a byte buffer agrees with the specification on every input |
| `Minecraft.OldPingPkg` | craftip/crates/protocol/src/minecraft.rs:114-148 | the FE 01 reader agrees with the specification and, on success, stops exactly at the packet's length |
| `Minecraft.OldConnectPkg` | craftip/crates/protocol/src/minecraft.rs:150-179 | the 0x02 reader agrees with the specification and, on success, stops exactly at the packet's length |
| `Minecraft.NewPkg` | craftip/crates/protocol/src/minecraft.rs:181-221 | the modern handshake reader agrees with the specification and, on success, stops exactly at the packet's length |
| `Minecraft.FromPacketWithoutLen` | craftip/crates/protocol/src/minecraft.rs:330-338 | puts the VarInt length before the content |
| `Minecraft.GrammarChosen` | craftip/crates/protocol/src/minecraft.rs:98-112 | the first two bytes choose the grammar: FE 01, 02 or anything else |
| `Minecraft.OldPingVerdict` | craftip/crates/protocol/src/minecraft.rs:114-148 | on any bytes: the verdict of the FE 01 grammar, with the 27 bytes it starts with |
| `Minecraft.OldConnectVerdict` | craftip/crates/protocol/src/minecraft.rs:150-179 | on any bytes: the verdict of the 0x02 grammar |
| `Minecraft.HandshakeAcceptedExactly` | craftip/crates/protocol/src/minecraft.rs:181-221 | on any bytes: a modern handshake is accepted if and only if all its fields are there, the packet id is zero and the length is the position behind the port; next state 1 is a status request, 2 a login and any other of unknown type |
| `Minecraft.HandshakeHeadVerdict` | craftip/crates/protocol/src/minecraft.rs:184-190 | on any bytes: which of the first three fields makes the verdict, and the error it is refused with |
| `Minecraft.HandshakeTailVerdict` | craftip/crates/protocol/src/minecraft.rs:190-203 | likewise for hostname, port, the length check and the next state |
| `Minecraft.HelloWindow` | craftip/crates/protocol/src/minecraft.rs:98-221 | a verdict on a buffer and on any extension agree: an answer read inside the shorter buffer is the answer on both, None only where more bytes were needed |
| `Minecraft.VerdictStable` | craftip/crates/protocol/src/minecraft.rs:98-221 | once the parser says Some or Err, every extension of the bytes gets the same answer |
| `Minecraft.ExactConsumption` | craftip/crates/protocol/src/minecraft.rs:98-221 | an accepted packet lies inside the buffer, parses alone to the same packet, and every shorter prefix gives None |
| `Minecraft.HandshakeRoundTrip` | craftip/crates/protocol/src/minecraft.rs:103-111 | a printed handshake is accepted if and only if its length field and its next-state field take the same number of bytes and the body is not 254 bytes long; then version, port, hostname and forge flag come back, whatever follows, and the type is a status request for next state 1, a login for 2 and unknown for any other |
| `Minecraft.ShortHandshakeAccepted` | craftip/crates/protocol/src/minecraft.rs:184-220 | for next state 1 or 2 this condition is exactly a body of at most 127 bytes |
| `Minecraft.RefusedLogin` | craftip/crates/protocol/src/minecraft.rs:195-197 | an input it refuses: a login with a 128-byte body |
| `Minecraft.RefusedAsLegacyPing` | craftip/crates/protocol/src/minecraft.rs:103-106 | another: a 254-byte body whose length and next-state fields do take the same number of bytes |
| `Minecraft.CutAtFirstNul` | craftip/crates/protocol/src/minecraft.rs:206-210 | the hostname is cut at the first NUL, whatever follows it |
| `Minecraft.MarkedExactly` | craftip/crates/protocol/src/minecraft.rs:204 | the forge flag is set exactly for names that end in NUL FORGE |
| `Minecraft.HostnameRecovered` | craftip/crates/protocol/src/minecraft.rs:204-210 | a hostname without NUL comes back unchanged; with the Forge marker behind it, the marker is cut and the flag set |
| `Minecraft.OldConnectRoundTrip` | craftip/crates/protocol/src/minecraft.rs:150-179 | a well-formed 0x02 packet gives back host, version and port for every pair of strings |
| `Minecraft.OldPingRoundTrip` | craftip/crates/protocol/src/minecraft.rs:114-148 | a well-formed FE 01 packet is accepted if and only if its hostname is all ASCII, and refused as invalid otherwise |
| `Minecraft.RefusedPing` | craftip/crates/protocol/src/minecraft.rs:132-134 | an input it refuses: a ping for a hostname of one letter outside ASCII |
| `Minecraft.WithLengthRoundTrip` | craftip/crates/protocol/src/minecraft.rs:330-338 | content framed by its length is found again in front of any bytes |
| `FirstPacket.FirstMinecraftPacket` | craftip/server/src/client_handler.rs:204-214 | the packet is found if and only if some run of reads without a failure holds one, and then after the shortest such run, with everything read; a failed read ends the loop if and only if no packet was there before it |
| `FirstPacket.FirstPacketAnyChunking` | craftip/server/src/client_handler.rs:204-214 | however the stream is cut into reads, the same packet is found, every byte read is handed on, and the packet lies inside it |
| `FirstPacket.AfterPacket` | craftip/server/src/disconnect_client.rs:20 | slicing the first data at the packet's length is always in range |
| `ControlCodec.SerializeRoundTrip` | craftip/crates/protocol/src/socket_packet.rs:72-77 | every packet body is read back from its serialised form, whatever follows it |
| `ControlCodec.Layout` | craftip/crates/protocol/src/socket_packet.rs:20-36 | the bytes of every packet body: variant number in declaration order, then the fields |
| `ControlCodec.LeBytes` | craftip/crates/protocol/src/socket_packet.rs:74 | numbers are written least significant byte first |
| `ControlCodec.DeserializeExactly` | craftip/crates/protocol/src/socket_packet.rs:117-121 | a body is read as a packet if and only if it begins with what the packet is serialised to |
| `ControlCodec.TruncatedBody` | craftip/crates/protocol/src/socket_packet.rs:117-121 | a body cut short is never read as a packet |
| `ControlCodec.DeserializeExtend` | craftip/crates/protocol/src/socket_packet.rs:117-121 | bytes behind a complete body do not change how it is read |
| `SocketPackets.EncodeInto` | craftip/crates/protocol/src/socket_packet.rs:62-80 | appends one frame: 15-bit length with the kind bit, then id and raw data, or the serialised body |
| `SocketPackets.DecodeFrom` | craftip/crates/protocol/src/socket_packet.rs:84-122 | result and remaining buffer of one attempt, on any bytes |
| `SocketPackets.ReceiveChunk` | craftip/crates/protocol/src/packet_codec.rs:43-53 | repeated decoding after a chunk terminates and gives all packets of the buffer, the rest and the reason for stopping |
| `SocketPackets.DecodeFrameOutcomes` | craftip/crates/protocol/src/socket_packet.rs:84-122 | None exactly when header or body is incomplete, and then the buffer is untouched; success and a bad body consume exactly header plus length; TooLong never happens; slicing panics exactly on a complete data frame shorter than its id |
| `SocketPackets.FrameLayout` | craftip/crates/protocol/src/socket_packet.rs:62-80 | the bytes of every frame |
| `SocketPackets.FrameMeaning` | craftip/crates/protocol/src/socket_packet.rs:106-121 | on any complete frame: a data frame with room for its id is a packet of the rest; a control frame is a packet if and only if its body begins with what the packet is serialised to, and an encoding error otherwise |
| `SocketPackets.StopsAtFailure` | craftip/crates/protocol/src/packet_codec.rs:43-53 | behind the packets of a stream the decoder stops at the first frame that gives none, with its result |
| `SocketPackets.FrameStable` | craftip/crates/protocol/src/socket_packet.rs:84-122 | an answered attempt gives the same answer after more bytes arrive |
| `SocketPackets.AnyChunking` | craftip/crates/protocol/src/socket_packet.rs:176-211 | for every stream and every split of it, the same packets come out and the decoder stops for the same reason |
| `SocketPackets.FaithfulExactlyWhenEncodable` | craftip/crates/protocol/src/socket_packet.rs:62-80 | an encoded packet is decoded to itself with exactly the suffix left over if and only if its body is shorter than 2^15 and its id below 2^16 |
| `SocketPackets.FramesRoundTrip` | craftip/crates/protocol/src/socket_packet.rs:142-173 | decoding the concatenated encodings of a list of packets gives the list and an empty buffer |
| `SocketPackets.StreamRoundTrip` | craftip/crates/protocol/src/socket_packet.rs:176-211 | the same through every chunking |
| `SocketPackets.StreamSoFar` | craftip/crates/protocol/src/socket_packet.rs:176-211 | every byte prefix of a stream of frames decodes to the first packets, with the rest untouched and the decoder waiting |
| `SocketPackets.StreamFaithfulExactly` | craftip/crates/protocol/src/socket_packet.rs:142-173 | a stream is decoded to the packets written to it if and only if every one of them can be carried |
| `SocketPackets.PrefixFree` | craftip/crates/protocol/src/socket_packet.rs:62-80 | no encoding is a proper prefix of another |
| `SocketPackets.KindBit` | craftip/crates/protocol/src/socket_packet.rs:64-78 | data and control frames are told apart by the first bit |
| `Slots.Distributor.Insert` | craftip/server/src/proxy_handler.rs:58-69 | takes the least free id, fills that slot and no other; fails exactly when all 255 are taken, changing nothing |
| `Slots.Distributor.RemoveById` | craftip/server/src/proxy_handler.rs:72-78 | empties the slot of any id in range and says true, also when it was empty |
| `Slots.Distributor.GetById` | craftip/server/src/proxy_handler.rs:80-83 | the sender in the slot, or none out of range |
| `Slots.IdsBelowPeak` | craftip/server/src/proxy_handler.rs:57-84 | over every sequence of inserts and removals each id handed out is below the peak number of slots held at once |
| `Slots.Client.Add` | craftip/crates/client/src/client.rs:43-52 | writes the slot and counts up, also over an occupied slot; ignores ids out of range |
| `Slots.Client.Remove` | craftip/crates/client/src/client.rs:53-65 | empties an occupied slot and counts down; nothing for an empty one |
| `Slots.Client.SendTo` | craftip/crates/client/src/client.rs:66-77 | ClientNotFound exactly for an empty or missing slot; a dead receiver is removed and not reported |
| `Slots.CounterConservation` | craftip/crates/client/src/client.rs:43-77 | over every sequence of joins, disconnects and sends the counter is the number of occupied slots plus the joins that hit an occupied slot, so it is exact when none does and the subtraction never saturates |
| `Readers.HandleReader` | craftip/server/src/proxy_handler.rs:191-236 | the reader loop, with the writer at work on the same slots before every frame: slots and deliveries are those of the rounds in order, data for empty slots dropped |
| `Readers.HoldsExactly` | craftip/server/src/proxy_handler.rs:57-84 | after any sequence of operations of both tasks a slot names a player if and only if that player was given the id, or held it from the start, and nobody has freed it since |
| `Readers.DeliveriesGoToHolders` | craftip/server/src/proxy_handler.rs:206-214 | a chunk is handed only to a player for which this holds at its frame |
| `Readers.StepIsReadUpFrame` | craftip/server/src/proxy_handler.rs:201-214 | the reader's step of the session machine is one round of the reader loop |
| `Readers.ReaderHandler` | craftip/crates/client/src/client.rs:239-297 | the reader loop: array, counter and deliveries are those of the connection operations it was given, and it stops early exactly for data without a connection |
| `Readers.DeliveredNext` | craftip/crates/client/src/client.rs:272-274 | each chunk is delivered if and only if its slot holds a connection that listens, and to that connection |
| `Readers.StepIsReaderInput` | craftip/crates/client/src/client.rs:260-278 | the client reader's step of the session machine is one round of the reader loop: same table, same counter, and the chunk goes into the inbox of exactly the connection the loop sends to |
| `Endpoints.ClientConnection.HandleClient` | craftip/crates/client/src/connection_handler.rs:41-93 | copies both ways in order up to the first input that ends the connection; it was ended by the server side exactly at a failed write, an empty read, a failed send or a hang-up of the server, and need_for_close is cleared exactly when the proxy hung up |
| `Endpoints.ClientConnection.Drop` | craftip/crates/client/src/connection_handler.rs:100-109 | sends one closing message if and only if need_for_close is set |
| `Endpoints.ClientConnection.Live` | craftip/crates/client/src/connection_handler.rs:41-109 | over a whole life: the data, then no closing message if the proxy closed, one if the Minecraft server did, and a death before it if the connection was never made |
| `Endpoints.CopyingIsSteps` | craftip/crates/client/src/connection_handler.rs:48-89 | the copying loop takes the session machine's steps: the same messages upwards and the same deliveries, in the same order |
| `Endpoints.CopiedInOrder` | craftip/crates/client/src/connection_handler.rs:48-89 | which input yields what, one by one and in order: a chunk of the proxy goes to the Minecraft server, a chunk of the Minecraft server goes up under the id |
| `Endpoints.EndingIsStep` | craftip/crates/client/src/connection_handler.rs:59-109 | each way a connection ends sends its closing messages in one step of the machine |
| `Endpoints.MCClient.constructor` | craftip/server/src/client_handler.rs:98-104 | asks for an id |
| `Endpoints.MCClient.Start` | craftip/server/src/client_handler.rs:106-120 | waits for the writer's reply, then forwards the first data under the id it was given, or gives up without one |
| `Endpoints.MCClient.Handle` | craftip/server/src/client_handler.rs:122-200 | forwards every read in order up to the first error, timeout, empty read, failed send or end of the writing half, then leaves exactly once; after a closed queue nothing is sent |
| `Endpoints.PlayerEndingIsStep` | craftip/server/src/client_handler.rs:185-199 | each way a player ends is one step of the session machine, with the one message it sends |
| `Endpoints.ChatIsSteps` | craftip/server/src/client_handler.rs:127-152 | the reading loop takes the session machine's steps |
| `Endpoints.PlayerIsSteps` | craftip/server/src/client_handler.rs:88-121 | asking, starting and leaving put the same messages on the queue as the machine's steps |
| `Multiplexer.StepWellFormed` | craftip/server/src/proxy_handler.rs:191-298 | every step keeps all channels in tables and queues owned by an existing player or connection |
| `Lifecycle.EverythingInOrder` | craftip/server/src/client_handler.rs:101-110 | in every run: a player sends nothing before it has its id, and then its first data before all else; a connection carries nothing before it is accepted |
| `Isolation.RunInv` | craftip/server/src/proxy_handler.rs:242-297 | the invariant behind isolation holds after every run without far-side endings |
| `Isolation.DownStreamIsolation` | craftip/server/src/proxy_handler.rs:242-297 | while no tunnelled connection ends from the Minecraft server's side: per id the down stream is (Join Data* Disconnect)* with an open tail, every connection has a player of its own, receives exactly that player's data from the stream, in order, as a prefix of what it sent, and ClientNotFound never occurs |
| `Isolation.RestDeliversEverything` | craftip/crates/client/src/client.rs:239-278 | in that regime, once nothing is left to do, both tables hold the same ids and every open connection has delivered all its player sent |
| `Isolation.EndsWhenFull` | craftip/server/src/proxy_handler.rs:251-255 | in that regime a session ends if and only if a player is to be let in while all 255 slots are taken, and then for every player |
| `Isolation.ReuseLosesAConnection` | craftip/server/src/proxy_handler.rs:203-205 | outside that regime: a concrete run in which an id freed by the far side is reused too soon and a second player's data finds no connection and ends the session |
| `DownStream.GivenToOwnerExactly` | craftip/crates/client/src/client.rs:66-77 | in all runs, far-side endings and slot reuse included: data that finds its slot occupied goes to the connection in it, if that still listens, and this is the connection of the player it comes from if and only if the id has not been joined again since this player |
| `DownStream.DownStreamInOrder` | craftip/crates/client/src/client.rs:239-278 | in all runs whose data reads all meet this condition: every connection has a player of its own and has been given a prefix, in order, of what this player sent |
| `DownStream.RestGivesEverything` | craftip/crates/client/src/connection_handler.rs:48-66 | in such a run at rest, every open connection that is still in its slot has delivered all its player sent |
| `DownStream.RegimeReadsOwn` | craftip/crates/client/src/client.rs:260-278 | the condition is met in every run without far-side endings and failures, however often ids are reused |
| `DownStream.IdsOnceReadOwn` | craftip/crates/client/src/client.rs:260-278 | and in every run in which no id is joined twice |
| `LateData.DataReachesNextConnection` | craftip/server/src/proxy_handler.rs:203-205 | it fails otherwise: a concrete run in which the second player's connection is given what the first player sent, and the session goes on |
| `Endings.SessionEndsExactly` | craftip/crates/client/src/client.rs:66-71 | in all runs: a session has ended if and only if a player was to be let in with all slots taken, data for an empty slot was read, or the message of a failed connection was taken; ClientNotFound was raised exactly in the second case |
| `Endings.FailedConnectEndsSession` | craftip/crates/client/src/client.rs:226-229 | in all runs: one connection to the Minecraft server that cannot be made ends the session for all players, whatever else happens |
| `FarSide.FailureAloneEndsSession` | craftip/crates/client/src/connection_handler.rs:95-97 | a run of five events that does, without a chunk sent |
| `FarSide.FarEndingCanEndSession` | craftip/crates/client/src/client.rs:66-71 | from every session at rest, one open connection dropped by the Minecraft server and one more chunk from its player end the session for all players |
| `FarSide.FailedConnectCanEndSession` | craftip/crates/client/src/client.rs:66-77 | a failed connect can end the session even before its message is taken: from every session at rest with a slot to spare, through the second chunk of the player it was for |
| `FarSide.FirstPlayerFails` | craftip/crates/client/src/client.rs:66-77 | such a run, from the start of a session |
| `UpStream.DeliveredToOwnerExactly` | craftip/server/src/proxy_handler.rs:206-214 | in all runs, slot reuse and far-side endings included: data that reaches a player reaches the player of the connection it comes from if and only if the id has not been joined again since that connection began |
| `UpStream.UpStreamIsolation` | craftip/server/src/proxy_handler.rs:191-236 | in all runs whose reads all meet this condition: every player has received a prefix, in order, of what its own connection sent, and nothing without a connection |
| `UpStream.RestHearsEverything` | craftip/server/src/proxy_handler.rs:191-236 | in such a run at rest, every running player that is still in its connection's slot has received all the connection sent |
| `UpStream.IdsOnceReadOwn` | craftip/server/src/proxy_handler.rs:191-236 | the condition is met as long as no id is joined twice |
| `LateData.LateDataReachesNextPlayer` | craftip/server/src/proxy_handler.rs:206-214 | it fails otherwise, even while nothing ends from the far side: a concrete run in which a player receives the data of its predecessor's connection |
| `Acks.NoInfiniteAcks` | craftip/server/src/proxy_handler.rs:270-277 | in all runs, races included, at every prefix of the down stream: disconnects of an id never exceed its joins, data for it comes after a join, and upstream disconnects never exceed the joins received |
| `Acks.InternalStepShrinks` | craftip/server/src/proxy_handler.rs:242-297 | every step that needs no new input decreases a measure |
| `Acks.ComesToRest` | craftip/crates/client/src/client.rs:193-236 | hence after input stops at most that many steps follow, in whatever order the tasks run |
| `Acks.RestIsBalanced` | craftip/server/src/proxy_handler.rs:242-297 | at rest every player has started or gone, running players hold their slots, and the joins of an id exceed its disconnects exactly by the one player running under it |
| `Writers.HandleWriter` | craftip/server/src/proxy_handler.rs:237-298 | for every interleaving of arrivals: whenever it waits, everything taken so far is flushed, in queue order, as if written and flushed singly; slots and replies likewise |
| `Writers.StepsAreWriteSingly` | craftip/server/src/proxy_handler.rs:249-285 | the writer's steps of the session machine write the same frames one message at a time |
| `Writers.WriterHandler` | craftip/crates/client/src/client.rs:193-237 | the same for the client's writer, which stops at a dead connection |
| `Writers.StepIsSendOne` | craftip/crates/client/src/client.rs:216-235 | the client writer's step of the session machine is one round of the writer loop |
| `Writers.PlayerSocketWriter` | craftip/server/src/client_handler.rs:155-175 | the same for the writer of one player's socket, in bytes |
| `Wire.WirePackets` | craftip/server/src/proxy_handler.rs:260-272 | joins, disconnects and data of the session are the packets of these names, under the same id |
| `Wire.RunFits` | craftip/server/src/client_handler.rs:128-141 | in every run all ids are below 255, every chunk going down is at most one 2048-byte read or the first data of its player, and every chunk going up at most one 16384-byte read |
| `Wire.SessionCrossesTheWire` | craftip/crates/protocol/src/socket_packet.rs:62-122 | under every chunking of both streams and at every moment each side has decoded exactly the first frames the other sent, and all of them once everything has arrived, if first data is short |
| `Wire.FirstDataLimit` | craftip/server/src/client_handler.rs:108-110 | forwarding a player's first data is faithful if and only if it is at most 32765 bytes |
| `Wire.LongLogin` | craftip/server/src/client_handler.rs:204-214 | nothing enforces that bound: a complete legacy login with n letters is found for every n and forwarded faithfully exactly for n below 16378 |
| `Registers.TrailingDots` | craftip/server/src/register.rs:20-27 | trailing dots never change the cleaned hostname |
| `Registers.RandomLabel` | craftip/server/src/register.rs:22-24 | behind "random-" and a dot-free label the trimmed rest is left; without a rest, the empty name |
| `Registers.CleanTwice` | craftip/server/src/register.rs:20-27 | cleaning a cleaned name changes it if and only if the dot-trimmed name starts with "random-" and so does what follows its first dot |
| `Registers.TwoLabels` | craftip/server/src/register.rs:20-27 | an input for which it does |
| `Registers.OrdinaryName` | craftip/server/src/register.rs:20-27 | a name without a made-up label only loses its trailing dots |
| `Registers.CleanedRandomNames` | craftip/server/src/register.rs:75-91 | the names the repository tries, with a made-up label |
| `Registers.CleanedPlainNames` | craftip/server/src/register.rs:83-90 | and those without |
| `Registers.KeyHostnameUnchanged` | craftip/crates/protocol/src/crypto.rs:102-118 | a base-36 name under the key-server suffix is cleaned to itself |
| `Registers.DecoratedLookup` | craftip/server/src/register.rs:20-33 | every decorated form of a server's hostname looks up the same server |
| `Registers.Register.AddServer` | craftip/server/src/register.rs:41-49 | adds the hostname if and only if it is free, and changes no other entry |
| `Registers.Register.RemoveServer` | craftip/server/src/register.rs:35-37 | removes this one entry |
| `Registers.Register.ServerFor` | craftip/server/src/client_handler.rs:53-54 | a player is sent to the session registered under the cleaned hostname |
| `Sessions.FailureOutcomes` | craftip/server/src/proxy_handler.rs:148-168 | a failure before the registration ends a session, and one of the confirmation leaves it to be removed |
| `Registration.RegisterHoldsLiveSessions` | craftip/server/src/proxy_handler.rs:134-189 | in every reachable state of any number of sessions, strangers included: a hostname is registered to a session exactly while it is between its successful add and its remove; that session received this hello, and a signature of its own challenge by the key that hashes to the hostname |
| `Registration.NoEviction` | craftip/server/src/register.rs:41-49 | no event of another session ever touches an entry; the register only ever gains a free hostname for the session that moves or loses that session's own entry |
| `Registration.PlayersReachTheOwner` | craftip/server/src/client_handler.rs:52-54 | every decorated form of a key's hostname leads to a session if and only if that session holds the hostname |
| `Handshake.ConnectedMeansRegistered` | craftip/crates/client/src/client.rs:122-166 | in every run: a client returns Ok only if, when the response was sent, the register mapped its own hostname to this very session, with its own key checked |
| `Completion.HandshakesComplete` | craftip/crates/client/src/client.rs:122-166 | an undisturbed handshake of an honest client never blocks, whatever other sessions do: a step of its own is possible until it has finished, and it has after at most ten |
| `Completion.OutcomeOfHandshake` | craftip/server/src/proxy_handler.rs:148-168 | its result: "Could not authenticate" exactly for a hostname the key does not have, otherwise Ok or "Already connected?" according to whether the hostname was free at the session's one turn at the register |
| `Completion.OneTurn` | craftip/server/src/proxy_handler.rs:148-159 | a session tries to register at most once |
| `ProxyClients.New` | craftip/server/src/proxy_handler.rs:104-131 | the first packet that is no ping decides: a hello is the result, anything else or the end of the stream is none; exactly the pings before it are answered, in order, and nothing behind it is taken |
| `ProxyClients.PingsThenHello` | craftip/server/src/proxy_handler.rs:108-116 | any number of pings before the hello are each answered, in order, and nothing behind the hello is taken |
| `ProxyClients.CheckSignature` | craftip/server/src/proxy_handler.rs:302-346 | sends the challenge, and accepts if and only if the next packet is a signature that verifies under a key whose hostname is the claimed one; otherwise the one error packet for the case is sent |
| `ProxyClients.Enter` | craftip/server/src/proxy_handler.rs:148-168 | a taken hostname is refused with its error packet and the register untouched; a free one is registered and confirmed, and if the confirmation fails the session is left to be removed |
| `ProxyClients.Handle` | craftip/server/src/proxy_handler.rs:148-189 | a session that was refused changes nothing in the register, and one that was registered removes its own entry from what it finds at the end; it runs exactly if the hostname was free and the response could be sent. That the entry is still its own then, among any other sessions, is the result of `Registration.RegisterHoldsLiveSessions` and `Registration.NoEviction` |
| `ProxyClients.Auth` | craftip/crates/client/src/client.rs:122-166 | what the client sends and what it returns, by the two packets it is answered with |
| `HandshakeWire.HandshakeCrossesTheWire` | craftip/crates/protocol/src/socket_packet.rs:62-122 | under every chunking and at every moment each side has decoded the first packets of the handshake, and in the end all, as long as the hostname fits |
| `HandshakeWire.HelloFits` | craftip/crates/client/src/client.rs:124-132 | a hello fits a frame if and only if its hostname takes at most 32717 bytes |

## Left out

- Sockets, TLS, HTTP and the scheduler: they appear only as nondeterministic steps, and fairness of `select!` is not assumed; bounded-step results replace statements about time.
- Wall-clock timeouts and keep-alive pings, with `AnswerPingPacket`, `ProxyPong` on a running session and the client's `ping`: they carry no tunnelled data. A timeout is a session that fails or a player that leaves.
- Unexpected packets on a running session: the server ignores them and the client ends; only frames of the multiplexer are modelled there.
- Ed25519, SHA-256, the base-x encoder and random challenges: a parameter with its laws stated where used.
- Parsing private and public keys from text, key files and everything else the GUI and the updater do: state of windows and plumbing around libraries.
- JSON responses to status requests, statistics and logging: constants and output.
- `packet_codec.rs` and `process_socket.rs`, except the decode loop and the order in which a session is created, authenticated and handled: thin.
- `connect` on the client, the protocol identifier and the version field before the first frame: fixed bytes that no branch of the handshake depends on afterwards.
- The body of a control packet is modelled from bincode's fixed-width layout (little-endian tag and fields); bincode itself is not part of this model.
- Growth and capacity of buffers, and the allocation failures they could cause; `usize` is 64 bits wide.
- Socket write errors inside the writer loops: the loops are run to the end of their input, and a session that fails is a run that stops.
- The count of connected players in the register beyond its two saturating updates: only shown to the user.
- Minecraft.HandshakeRoundTrip: bodies of 2^31 bytes and more, whose length a 32-bit VarInt cannot carry.
- Minecraft.WithLengthRoundTrip: likewise, content of 2^31 bytes and more.
- Cursor.Utf8StringRoundTrip: likewise, strings of 2^31 bytes and more.
- Minecraft.OldPingRoundTrip: hostnames for which the 16-bit length field of the packet overflows.
- Minecraft.OldConnectRoundTrip: strings of 2^16 UTF-16 units and more, whose count the packet cannot carry.
- Slots.CounterConservation: sequences of more than 2^64 - 1 operations, where the counter itself would saturate.
- Multiplexer.Step: the abort of the remaining task when one of a pair ends is one atomic step.
- Isolation.DownStreamIsolation: holds in the regime without endings and failures on the Minecraft server's side only, because outside it the property is false (`LateData.DataReachesNextConnection`); `DownStream.DownStreamInOrder` is the part that holds exactly as far as the data reads do.
- UpStream.UpStreamIsolation: holds for runs without late reads only, because otherwise the property is false (`LateData.LateDataReachesNextPlayer`).
- Wire.SessionCrossesTheWire: requires short first data of each player, because without it the property is false (`Wire.LongLogin`).
- Sessions.Step: a client is a party to one handshake; what it does after Ok is the multiplexer's part.
