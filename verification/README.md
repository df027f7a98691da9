# Verified model of an MQTT 5.0 client

A Dafny model of the QoS 1 and 2 session machinery of the Eclipse Paho MQTT 5.0 client for Go, and of
what that machinery rests on, with proofs of what it promises over every run. `dafny verify
dfyconfig.toml` checks the whole project.

## What is modelled

- **Wire codec** (`packets/`). Modules `Bits`, `Wire`, `Properties`, `Packets` and `Stream` give the formats
  as functions: variable byte integers, property sets, the bodies of CONNECT, PUBLISH, the four
  acknowledgements, SUBSCRIBE and UNSUBSCRIBE, and whole packets on a stream. `WireBuffers`,
  `PropertyBuffers` and `PacketBuffers` are the loops and buffer operations of the source, proved against
  those functions. `WireLayout` states the format byte by byte and what a reader makes of bytes no writer here
  produces. A property set is a map from property code to value; an empty string is an unset
  field and a nil property set is the empty one, as `Pack` treats them.
- **Session store** (`paho/store/memory/`). `MemoryStore` is the object with its insertion sort, `StoreLog`
  what it promises, `StoreHistory` the refinement of the history of all Puts and Deletes.
- **Send quota** (`paho/session/state/sendquota.go`). `SendQuota` is the object, `QuotaRuns` every
  interleaving of acquire, cancel, retransmit and release.
- **Packet identifiers**. `PacketIds` is the round-robin allocator with its 16-bit wrap-around.
- **Session** (`paho/session/state/state.go`). `Session` gives every operation as a function on the whole
  state, `SessionState` is the object with its maps, stores and quota, proved against those functions.
  `SessionRuns` is the state machine of all events (CONNACK, loss of connection, restart of the process,
  slot, cancellation, publish, request, received packet, acknowledgement, shutdown) with its invariant.
  `SessionGuarantees`, `Retransmission`, `Deduplication`, `Answers` and `Replies` are the theorems over every run,
  `Exchanges` the complete QoS 1 and 2 exchanges.
- **Acknowledgement order** (`AcksTracker`), **publish queue** and its worker (`PublishQueue`,
  `QueueWorker`, with the conversions in `Messages`), **keep-alive** (`Pinger`), **topic filters and dispatch**
  (`Router`) and **topic aliases** (`TopicAliases`).

An operation that the source carries out step by step on an object or a buffer is a method here, and its
contract ties the new state to a function of the old one. The theorems are about those functions.

## What the session model takes for granted

- Every handler is one atomic step: the source holds its lock for the parts that matter.
- AddToSession has two steps, the grant of a slot and the rest, and everything else may fall between them.
- Requests are made while a connection is set. That includes one on which ConAckReceived returned an error,
  which the source leaves set.

Three results are lost by particular events, and `SessionRuns.NextKeeps` shows that by no others. The first and
the third rest on the second:

- The count of slots, when a CONNACK falls between a publisher's slot and its store write.
  `SessionGuarantees.SlotForgotten` shows how and `SessionGuarantees.ReconnectExactly` gives the exact condition.
- That stored packets are the registered publishes, when a request is given the identifier of a stored
  packet, or the server answers one that is not a publish with PUBREC. `Retransmission.MixedWhenBroken`
  shows how; `SessionGuarantees.RequestExactly` and `SessionGuarantees.PubrecExactly` give the exact conditions.
- That no stored identifier is handed out again, when Close falls between a slot and its store write, or a
  publisher comes while a stored packet is not registered. `Retransmission.OverwrittenAfterClose` and
  `Retransmission.OverwrittenWhenBroken` show how; `SessionGuarantees.CloseReissuesExactly` and
  `SessionGuarantees.ConAckRegistersExactly` give the exact conditions.

Further:

- A PUBLISH given to the session has a QoS of 1 to 3, can be encoded and carries no reason string. With a
  reason string it is stored but cannot be read again; `SessionRuns.StorableExactly` shows that this is
  the only case.
- A packet that makes the session write to its connection without looking (`Session.Writes`) arrives while
  there is one; the source panics otherwise, as `SessionState.State.PacketReceived` says.
- Store writes succeed, except the one in AddToSession, which may fail.
- A response channel is passed in for one request only. A process starts on stores that earlier runs of
  the same code have left.

## Where code and comments disagree

The model follows the code in each case.

- `paho/session/state/state.go:602-606` says that a PUBREL with a failure code removes the message from the
  store; the code returns without doing so. `Deduplication.PubrelForgetsExactly` says when it does.
- `paho/session/state/state.go:350-351` says that something is sent to the response channel when a packet is
  removed from the session; `clean` drops its entries silently. At most one answer is therefore the
  theorem; `Answers.SilentExactly` says exactly when a request goes without one and `Answers.DroppedInSilence`
  shows one that does.
- `paho/session/state/state.go:353` says that a failing AddToSession rewinds everything; the allocator's
  position stays moved, as `SessionGuarantees.FailedAddUndone` says.
- `packets/properties.go:246-410` writes a reason string for PUBLISH, SUBSCRIBE and UNSUBSCRIBE, which
  `ValidProperties` refuses, and leaves out five Will properties of CONNECT, which it allows.
- `paho/extensions/topicaliases/topicliases.go:60-72` looks as if a full table gave alias 0; the loop runs one
  past the slice and panics. Its `PublishHook` comment says a topic is never empty; with an alias it may be,
  and then clears the sender's entry.

## Model

| member | source | states |
|---|---|---|
| `Wire.VbiRoundTrip` | packets/packets.go:371-453 | Every length encodeVBI accepts takes at most four bytes and is read back by getVBI and decodeVBI, leaving what follows |
| `Wire.EncodeVbi` | packets/packets.go:371-376 | Encoding succeeds exactly on 0 to 268435455 |
| `Wire.BinRoundTrip` | packets/packets.go:475-491 | A string or byte slice is read back as its first 65535 bytes, leaving what follows |
| `Wire.U16RoundTrip` | packets/packets.go:455-460 | Big-endian 16-bit round trip |
| `Wire.U32RoundTrip` | packets/packets.go:462-473 | Big-endian 32-bit round trip |
| `WireBuffers.EncodeVbi` | packets/packets.go:371-390 | The digit loop over a four-byte array computes the variable byte integer and never leaves the array |
| `WireBuffers.Buffer.WriteVbi` | packets/packets.go:393-413 | Appends the encoding, or nothing when the number does not fit |
| `WireBuffers.Buffer.GetVbi` | packets/packets.go:416-432 | The loop consumes exactly the bytes of the format, with the same end-of-file and malformed errors |
| `WireBuffers.Buffer.DecodeVbi` | packets/packets.go:435-453 | The shift-and-add loop computes the number read digit by digit from the low end; end of buffer counts as a zero byte |
| `WireBuffers.Buffer.WriteUint16` | packets/packets.go:455-460 | Appends the 16-bit format |
| `WireBuffers.Buffer.WriteUint32` | packets/packets.go:462-473 | Appends the 32-bit format |
| `WireBuffers.Buffer.WriteBinary` | packets/packets.go:475-491 | Appends the length-prefixed format, truncated at 65535 |
| `WireBuffers.Buffer.ReadUint16` | packets/packets.go:493-503 | Consumes the 16-bit format or reports end of file |
| `WireBuffers.Buffer.ReadUint32` | packets/packets.go:505-523 | Consumes the 32-bit format or reports end of file |
| `WireBuffers.Buffer.ReadBinary` | packets/packets.go:525-542 | Consumes the length-prefixed format; end of file and unexpected end of file as io.ReadFull tells them apart |
| `Properties.Pack` | packets/properties.go:246-410 | Packing fails exactly when a subscription identifier the type writes is out of range |
| `Properties.PackAgainstValidate` | packets/properties.go:246-410 | Pack writes a field exactly when ValidateID allows it, but for the five Will fields of CONNECT and the reason string of PUBLISH, SUBSCRIBE and UNSUBSCRIBE |
| `Properties.PackedItemsValid` | packets/properties.go:789-825 | Everything Pack emits passes ValidateID if and only if no reason string is set for those three types |
| `Properties.PropertiesRoundTrip` | packets/properties.go:585-783 | Unpacking the length-prefixed result returns exactly the selected fields with user properties in order and leaves the following bytes; it fails exactly in the reason-string case |
| `Properties.SelectedIsAll` | packets/properties.go:246-410 | Nothing is lost exactly when the set holds only fields written for the type and every string fits |
| `Properties.PackSelected` | packets/properties.go:246-410 | Packing what is kept of a set gives the same bytes |
| `PropertyBuffers.Pack` | packets/properties.go:246-410 | The field-by-field writes and the loop over user properties produce the packed set |
| `PropertyBuffers.Unpack` | packets/properties.go:585-783 | Consumes the property section: length, then that many bytes or what is left |
| `PropertyBuffers.UnpackAll` | packets/properties.go:599-780 | The loop over property codes: same values set, same errors, in the same order |
| `Packets.PublishHeaderReads` | packets/packets.go:300-305 | With a two-bit QoS the header byte gives type, QoS, DUP and RETAIN back |
| `Packets.PublishBodyRoundTrip` | packets/publish.go:52-94 | A PUBLISH body is read back up to truncation, unless it carries a reason string |
| `Packets.AckBodyRoundTrip` | packets/pubrel.go:47-90 | An acknowledgement is read back, in the short form without properties and in the long one |
| `Packets.AckTypesAgree` | packets/pubrec.go:60-104 | Packing for the own type and unpacking for PUBACK agree |
| `Packets.SubOptionRoundTrip` | packets/subscribe.go:72-100 | Subscription options survive their byte when QoS and retain handling have two bits |
| `Packets.SubscribeBodyRoundTrip` | packets/subscribe.go:103-149 | A SUBSCRIBE body is read back, subscriptions in order |
| `Packets.UnsubscribeBodyRoundTrip` | packets/unsubscribe.go:47-90 | An UNSUBSCRIBE body is read back, the topic list ended by end of file |
| `Packets.ConnectBodyRoundTrip` | packets/connect.go:72-206 | A CONNECT body whose Will has a two-bit QoS is read back up to truncation and the properties Pack leaves out, optional parts driven by the flags |
| `Packets.UnpackedIsFaithful` | packets/properties.go:585-783 | What Unpack accepts for any type but CONNECT is a set that Pack writes and Unpack gives back |
| `Stream.PacketRoundTrip` | packets/packets.go:245-368 | A faithful packet is read back exactly and the read consumes exactly the bytes written |
| `Stream.PublishRoundTrip` | packets/packets.go:245-368 | Every encodable PUBLISH with a two-bit QoS reads back up to truncation unless it carries a reason string, and then fails |
| `Stream.ConnectRoundTrip` | packets/connect.go:104-206 | Every encodable CONNECT with a two-bit QoS of its Will reads back up to truncation and the properties Pack leaves out |
| `Stream.ReadIsFaithful` | packets/packets.go:245-330 | Whatever bytes arrive, a packet read from them (CONNECT aside) is one that round trips |
| `Stream.RoundTripExactly` | packets/packets.go:245-368 | An encodable packet round trips if and only if it is faithful |
| `Stream.StreamRoundTrip` | packets/packets.go:245-368 | Repeated ReadPacket over concatenated packets returns exactly the original sequence |
| `PacketBuffers.PublishBuffers` | packets/publish.go:79-94 | The writes produce the PUBLISH body or its error |
| `PacketBuffers.AckBuffers` | packets/pubrel.go:72-90 | The writes produce the body, leaving an empty property section out (PUBACK writes it) |
| `PacketBuffers.SubscribeBuffers` | packets/subscribe.go:132-149 | The loop over subscriptions produces the body |
| `PacketBuffers.UnsubscribeBuffers` | packets/unsubscribe.go:74-90 | The loop over topics produces the body |
| `PacketBuffers.ConnectBuffers` | packets/connect.go:169-206 | The flag-driven writes produce the CONNECT body |
| `PacketBuffers.WriteTo` | packets/packets.go:334-368 | Header, remaining length and body reach the writer, or nothing does |
| `PacketBuffers.UnpackPublish` | packets/publish.go:52-76 | Same message or same error as the format |
| `PacketBuffers.UnpackAck` | packets/pubrec.go:60-83 | Same packet or error, by remaining length |
| `PacketBuffers.UnpackSubscribe` | packets/subscribe.go:103-129 | The loop until the buffer is empty reads the list of the format |
| `PacketBuffers.UnpackUnsubscribe` | packets/unsubscribe.go:47-71 | The loop until end of file reads the list of the format |
| `PacketBuffers.UnpackConnect` | packets/connect.go:104-166 | Same CONNECT or same error as the format |
| `PacketBuffers.ReadPacket` | packets/packets.go:245-330 | Consumes exactly one packet of the format, or reports its error |
| `PacketBuffers.Transfer` | packets/packets.go:245-368 | Writing packets to a buffer and reading until it is empty gives the same packets back |
| `WireLayout.U16Layout` | packets/packets.go:455-503 | Two bytes, the high one first, for writer and reader |
| `WireLayout.U32Layout` | packets/packets.go:462-523 | Four bytes, the high one first, for writer and reader |
| `WireLayout.VbiLayout` | packets/packets.go:371-390 | The encoding stands for the number, low digits first, the top bit set on all but the last, and is the shortest |
| `WireLayout.VbiLimit` | packets/packets.go:371-376 | Four bytes hold exactly the numbers up to 268435455, and those are encoded |
| `WireLayout.ReadVbiExactly` | packets/packets.go:416-453 | Any bytes: read exactly when one of the first four has no top bit, malformed or cut off otherwise |
| `WireLayout.DecodeCutOff` | packets/packets.go:435-453 | A subscription identifier cut off by its buffer reads as if a zero followed |
| `WireLayout.DecodeMalformed` | packets/packets.go:435-453 | A fourth digit with the top bit set is malformed |
| `WireLayout.StringLimit` | packets/packets.go:475-491 | Exactly the first 65535 bytes of a string are written |
| `WireLayout.FirstByteLayout` | packets/packets.go:334-368 | The first byte of every packet, flags included |
| `WireLayout.ConnectFlagsLayout` | packets/connect.go:72-90 | The CONNECT flags by bit, the reserved one clear |
| `WireLayout.SubOptionLayout` | packets/subscribe.go:72-84 | The subscription options by bit |
| `WireLayout.PropertyTable` | packets/properties.go:789-825 | Which properties there are, the types of their values and the packets they may appear in, as one table |
| `WireLayout.ValueLayout` | packets/packets.go:455-491 | The bytes of a property value of each type |
| `WireLayout.OverlongSection` | packets/properties.go:585-600 | A property length beyond the buffer is read from what there is |
| `WireLayout.RepeatedProperty` | packets/properties.go:599-780 | Of a property that comes twice the later value counts |
| `WireLayout.EmptyProperty` | packets/properties.go:599-780 | An empty string or byte slice reads as a property that is not set |
| `WireLayout.AckForms` | packets/pubrec.go:60-83 | Acknowledgements of two, three and four bytes: two mean success, the others carry the reason |
| `WireLayout.AckLayout` | packets/pubrel.go:72-98 | The bytes of an acknowledgement without properties |
| `WireLayout.PublishLayout` | packets/publish.go:79-112 | The bytes of a short PUBLISH |
| `WireLayout.SubscribeLayout` | packets/subscribe.go:132-157 | The bytes of a short SUBSCRIBE |
| `WireLayout.SubsInOrder` | packets/subscribe.go:132-149 | Subscriptions are written in order, one after the other |
| `WireLayout.UnsubscribeLayout` | packets/unsubscribe.go:74-98 | The bytes of a short UNSUBSCRIBE |
| `WireLayout.TopicsInOrder` | packets/unsubscribe.go:74-90 | Topics are written in order, one after the other |
| `WireLayout.ConnectLayout` | packets/connect.go:169-206 | The bytes of a CONNECT body with short strings |
| `WireLayout.ReadExtends` | packets/packets.go:245-330 | A packet that was read is read the same when more follows |
| `WireLayout.CutOffFails` | packets/packets.go:245-330 | No proper prefix of a written packet is taken for a packet |
| `WireLayout.BodyCutOff` | packets/packets.go:312-322 | The error for a body that is cut off |
| `WireLayout.NoTypeZero` | packets/packets.go:245-330 | A packet of type 0 is refused, whatever follows |
| `WireLayout.TopicsCutOff` | packets/unsubscribe.go:58-68 | Reading the topics of an UNSUBSCRIBE ends at the end of the buffer or at one or two bytes that hold no topic; a topic that is cut off later is an error |
| `StoreLog.PutOrder` | paho/store/memory/store.go:55-71 | Put moves an identifier to the end of the listing and keeps the rest in order |
| `StoreLog.DeleteOrder` | paho/store/memory/store.go:84-93 | Delete takes an identifier out of the listing and keeps the rest in order |
| `StoreLog.ListingUnique` | paho/store/memory/store.go:102-124 | A store has only one listing, whatever order the map is iterated in |
| `StoreHistory.ListIsLatestPuts` | paho/store/memory/store.go:55-132 | After any history of Put, Delete and Reset the store is well formed and lists exactly the live identifiers by latest Put, each with the packet of that Put |
| `MemoryStore.Store.Put` | paho/store/memory/store.go:55-71 | The new state is the log with the packet put; a packet that cannot be encoded panics and changes nothing |
| `MemoryStore.Store.Get` | paho/store/memory/store.go:73-81 | The stored packet, or none |
| `MemoryStore.Store.Delete` | paho/store/memory/store.go:84-93 | The new state is the log without the packet; an unknown identifier is reported |
| `MemoryStore.Store.Quarantine` | paho/store/memory/store.go:97-99 | As Delete |
| `MemoryStore.Store.List` | paho/store/memory/store.go:102-124 | The insertion sort over the map returns the order of the log |
| `MemoryStore.Store.Reset` | paho/store/memory/store.go:127-132 | The new state holds nothing; later Puts still sort after earlier ones |
| `SendQuota.SendQuota.Acquire` | paho/session/state/sendquota.go:81-93 | Takes a slot at once when one is free and nobody waits, or when told not to wait; joins the queue otherwise |
| `SendQuota.SendQuota.Cancelled` | paho/session/state/sendquota.go:94-116 | A call whose channel was closed meanwhile keeps its slot; otherwise exactly its entry leaves the queue |
| `SendQuota.SendQuota.Release` | paho/session/state/sendquota.go:119-133 | Hands the slot to the head of the queue, returns it to the pool, or reports an unexpected release |
| `QuotaRuns.Reachable` | paho/session/state/sendquota.go:66-133 | Over every interleaving: holders equal initial less quota, nobody waits while a slot is free, uncancelled calls are granted in order of arrival |
| `QuotaRuns.GrantWithinQuota` | paho/session/state/sendquota.go:81-133 | A grant to a publisher never makes more than the receive maximum held |
| `QuotaRuns.CancelRace` | paho/session/state/sendquota.go:94-116 | A cancellation racing a hand-over neither loses nor duplicates a slot |
| `QuotaRuns.ReleaseExpected` | paho/session/state/sendquota.go:119-133 | A matched release is never unexpected |
| `QuotaRuns.ReleasesWakeHead` | paho/session/state/sendquota.go:119-133 | With waiters queued, the releases that cover the overdraft leave the queue alone and the next one wakes its head |
| `PacketIds.FindFree` | paho/session/state/state.go:645-671 | The two scans return the cyclically next free identifier, never 0, and fail exactly when all 65535 are taken |
| `PacketIds.NextFree` | paho/session/state/state.go:645-671 | The result is the nearest free identifier after the last one, or all are taken |
| `PacketIds.PositionAfter` | paho/session/state/state.go:645-671 | After an attempt the position is the identifier issued, or where it was but never 0 |
| `PacketIds.NotReissued` | paho/session/state/state.go:636-671 | An identifier is not issued again while another has stayed free since its last issue |
| `SessionState.State.Clean` | paho/session/state/state.go:676-683 | Both maps and both stores are emptied, the quota is left |
| `SessionState.State.ConnectionLost` | paho/session/state/state.go:324-342 | A DISCONNECT may change the expiry interval; interval 0 ends the session; a second call does nothing |
| `SessionState.State.LoadServerSession` | paho/session/state/state.go:274-312 | The loop remembers every stored PUBLISH or PUBREC by type and quarantines exactly the rest |
| `SessionState.State.Connect` | paho/session/state/state.go:153-206 | ConAckReceived up to the retransmission loop: session cleaned or kept, expiry interval, server packets, new quota |
| `SessionState.State.ResendStored` | paho/session/state/state.go:208-268 | The retransmission loop: what is sent, quarantined, registered and counted, up to the first failed write |
| `SessionState.State.ConAckReceived` | paho/session/state/state.go:153-269 | The whole of ConAckReceived is the session function of that name |
| `SessionState.State.AllocateNextPacketId` | paho/session/state/state.go:636-671 | The request is registered under the next free identifier and nothing else changes |
| `SessionState.State.AddPublish` | paho/session/state/state.go:387-414 | With a slot: identifier, registration and store, or everything given back and the identifier reset; a packet that cannot be encoded panics |
| `SessionState.State.AddRequest` | paho/session/state/state.go:387-414 | SUBSCRIBE and UNSUBSCRIBE are registered, take no slot and are not stored |
| `SessionState.State.EndClientGenerated` | paho/session/state/state.go:419-438 | The caller is answered, the identifier freed, and for a publish also its slot and its stored packet |
| `SessionState.State.Ack` | paho/session/state/state.go:455-501 | PUBACK for QoS 1, PUBREC for QoS 2 with its record in map and store even when the write fails, an error for a failed write and otherwise |
| `SessionState.State.PacketReceived` | paho/session/state/state.go:507-632 | Every incoming packet changes the state, answers, sends and delivers as the session function says; which write errors are returned, and when a write without a connection panics |
| `SessionState.State.Close` | paho/session/state/state.go:137-146 | Every request still registered once the connection is lost is told of the shutdown, once, in whatever order the map is iterated |
| `SessionRuns.NextKeeps` | paho/session/state/state.go:137-671 | Every event keeps the invariant (stores well formed, server's map and store agreeing, channels used once), and each of three further properties but for the events named above |
| `SessionRuns.PublishIsStored` | paho/session/state/state.go:400-402 | A stored PUBLISH is read back as what the encoding kept of it under its identifier, and can be sent again |
| `SessionRuns.StorableExactly` | paho/session/state/state.go:221-247 | An encodable PUBLISH with a two-bit QoS can be sent again from the store exactly when it carries no reason string |
| `SessionRuns.ResendAll` | paho/session/state/state.go:212-268 | Over a store of readable packets the loop sends them in order, takes one slot each, and stops at the first write that fails |
| `SessionGuarantees.StoreMatchesQuota` | paho/session/state/state.go:153-438 | In every reachable connected state the stored identifiers are exactly the registered publishes, and the slots in use are one for each of them and for each publisher about to store, unless an event happened that loses the one or the other |
| `SessionGuarantees.NoUnexpectedRelease` | paho/session/state/state.go:419-438 | With requests and store matched and the slots counted, ending a publish on a live connection never releases one that was not taken |
| `SessionGuarantees.ConAckSlots` | paho/session/state/state.go:205-253 | A successful ConAckReceived takes exactly one slot for each stored packet and leaves the rest of the receive maximum free |
| `SessionGuarantees.ReconnectExactly` | paho/session/state/state.go:205-268 | The count of slots survives a reconnection exactly when no publisher is between its slot and the store |
| `SessionGuarantees.SlotForgotten` | paho/session/state/state.go:354-415 | A run in which it does not: the slot is forgotten and a later release is unexpected |
| `SessionGuarantees.PubrecExactly` | paho/session/state/state.go:525-561 | PUBREC keeps store and registrations in step exactly when the identifier belongs to a publish |
| `SessionGuarantees.RequestExactly` | paho/session/state/state.go:354-415 | A SUBSCRIBE or UNSUBSCRIBE keeps store and registrations in step exactly when the identifier it is given is not in the store, which is always so on a usable connection |
| `SessionGuarantees.ConAckRegistersExactly` | paho/session/state/state.go:208-268 | After ConAckReceived every stored packet is registered exactly when those it could not write were before |
| `SessionGuarantees.ResendableExactly` | paho/session/state/state.go:221-247 | A stored packet is sent again exactly when it can be read and is a PUBLISH, with DUP, or a PUBREL |
| `SessionGuarantees.ResendAny` | paho/session/state/state.go:208-268 | The retransmission loop over any store, corrupt packets included: when it fails, what it sends in order, and that exactly the rest is dropped |
| `SessionGuarantees.LoadsExactly` | paho/session/state/state.go:274-312 | Loading keeps exactly the packets whose first byte says PUBLISH or PUBREC, with that type |
| `SessionGuarantees.CloseReissuesExactly` | paho/session/state/state.go:137-146 | After Close a publisher about to store is given a stored identifier exactly when the session outlives the connection and the identifier after the last one issued is stored |
| `SessionGuarantees.SessionKeptExactly` | paho/session/state/state.go:178-188 | The session outlives the connection exactly when the interval of DISCONNECT, else CONNACK, else CONNECT is not 0; then everything is kept, otherwise nothing |
| `SessionGuarantees.LostOnce` | paho/session/state/state.go:324-327 | Reporting the loss of a connection again changes nothing |
| `SessionGuarantees.FailedAddUndone` | paho/session/state/state.go:354-415 | A failed AddToSession leaves everything as it was but the allocator's position, where that is, and which error it is |
| `SessionGuarantees.FailedAddHandsOver` | paho/session/state/state.go:354-415 | With others waiting, the slot of a failed publisher goes to the first of them; otherwise it is returned |
| `Retransmission.ConAckResends` | paho/session/state/state.go:208-267 | A ConAckReceived with session present sends the stored packets, each once, by latest Put, PUBLISH with DUP and otherwise unchanged, PUBREL unchanged; it succeeds exactly when the connection takes them all |
| `Retransmission.NextStore` | paho/session/state/state.go:137-632 | The store changes exactly by cleaning, a new publish at the end, a PUBREL in place of a PUBLISH, and final acknowledgements |
| `Retransmission.FreshIdNotStored` | paho/session/state/state.go:636-671 | A stored identifier is never handed out for a new publish while the stored packets are registered |
| `Retransmission.NeverReissued` | paho/session/state/state.go:636-671 | Over any run without the events named above no identifier is handed out again while its packet is stored |
| `Retransmission.OverwrittenAfterClose` | paho/session/state/state.go:354-415 | A run in which one does: the publisher overwrites a stored PUBREL with its PUBLISH and sends it |
| `Retransmission.OverwrittenWhenBroken` | paho/session/state/state.go:208-268 | A run without Close that does the same: the first connection of a process fails, and a publish on it overwrites a stored PUBREL |
| `Retransmission.MixedWhenBroken` | paho/session/state/state.go:354-415 | A run in which a SUBSCRIBE is given a stored identifier, and keeps it on the next connection |
| `Retransmission.StoredStays` | paho/session/state/state.go:153-632 | Over any run a stored packet keeps its bytes and its place until it is acknowledged, its identifier is handed out again or the session ends |
| `Retransmission.ResentInOriginalOrder` | paho/session/state/state.go:208-267 | Two packets unacknowledged through any run are resent at the next full reconnection in the order they were first stored |
| `Retransmission.PublishGoesLast` | paho/session/state/state.go:400-402 | A new publish is listed after everything stored, replacing nothing while the stored packets are registered, and reads back as what the encoding kept of it |
| `Retransmission.PubrecStoresPubrel` | paho/session/state/state.go:544-556 | Handling a PUBREC below 0x80 stores and sends the PUBREL |
| `Retransmission.OnlyPubrelSent` | paho/session/state/state.go:525-561 | After that, over any run with reconnections and restarts, no PUBLISH with the identifier is sent until it ends, is handed out again, or the session ends |
| `Retransmission.NoPublishAfterPubrec` | paho/session/state/state.go:525-561 | And it is not handed out again, so none is sent, in any run without the events named above |
| `Retransmission.UnackedSurvives` | paho/session/state/state.go:153-632 | The identifier of an unacknowledged publish stays in the store until it ends or the session does |
| `Deduplication.ServerAgrees` | paho/session/state/state.go:274-312 | In every reachable connected state the server's identifiers are exactly the stored ones, each recorded as PUBREC |
| `Deduplication.NoDuplicateDelivered` | paho/session/state/state.go:565-627 | Once recorded, no duplicate is delivered over any run until its PUBREL is handled on a connection or the session ends |
| `Deduplication.NoDuplicateAfterAck` | paho/session/state/state.go:455-501 | So from the acknowledgement of a QoS 2 message on no duplicate of it is delivered until then |
| `Deduplication.PubrelForgetsExactly` | paho/session/state/state.go:598-627 | A PUBREL ends the record exactly when its code is no failure and the connection is set |
| `Deduplication.DeliversExactly` | paho/session/state/state.go:565-597 | An incoming message is delivered, once, exactly when it has an identifier or needs none and is no duplicate of a recorded QoS 2 one; when it is an error |
| `Deduplication.DeliveredExactly` | paho/session/state/state.go:565-597 | A run delivers exactly the acceptable messages that came in, each once and in order |
| `Deduplication.RecordedExactly` | paho/session/state/state.go:455-627 | A message is recorded exactly by its QoS 2 acknowledgement, until it is released or the session ends |
| `Deduplication.NoSessionPresent` | paho/session/state/state.go:166-174 | A CONNACK without a session empties both maps and both stores, and nothing counts as a duplicate any more |
| `Answers.AtMostOneAnswer` | paho/session/state/state.go:419-438 | Over a whole run a response channel receives at most one packet |
| `Answers.NoSilentEnd` | paho/session/state/state.go:419-438 | A request leaves the session only with an answer on its own channel, unless the session or the process ends |
| `Answers.SilentExactly` | paho/session/state/state.go:676-683 | A request leaves the session without an answer exactly when the session or the process ends |
| `Answers.CloseTellsExactly` | paho/session/state/state.go:137-146 | Close tells every request, on its own channel and with the shutdown packet, when the session outlives the connection, and none otherwise |
| `Answers.DroppedInSilence` | paho/session/state/state.go:324-342 | A run in which a request is dropped without an answer |
| `Answers.ReceiveAnswersEntry` | paho/session/state/state.go:507-561 | An incoming packet answers a request exactly when it is the final acknowledgement of its identifier |
| `Answers.PublishAnswers` | paho/session/state/state.go:513-561 | A publish ends only with PUBACK, PUBCOMP, PUBREC of 0x80 or more, or the shutdown packet |
| `Answers.ResponseExactly` | paho/session/state/state.go:419-438 | Any answer is the shutdown packet exactly when it comes from Close, and a packet exactly when that packet was received |
| `Answers.ToldWhatHappened` | paho/session/state/state.go:137-438 | Over a run a caller is told only of packets that were received, or of a shutdown that happened |
| `Answers.RequestAnswered` | paho/session/state/state.go:387-438 | A SUBSCRIBE or UNSUBSCRIBE is registered under the identifier returned for it, and its acknowledgement answers its channel and leaves the session as it was before, but for the allocator's position |
| `Replies.SentExactly` | paho/session/state/state.go:400-627 | But for retransmission an event sends at most one packet, exactly when it has its cause: which acknowledgement, identifier and reason for which event |
| `Replies.SentAccounted` | paho/session/state/state.go:137-632 | Over a run every packet sent is accounted for by an event: PUBACK only for QoS 1, PUBREC only for QoS 2, PUBCOMP only for a PUBREL |
| `Replies.AckFailsExactly` | paho/session/state/state.go:497-500 | Acknowledging fails exactly for a message that is neither QoS 1 nor QoS 2 |
| `Replies.WritesExactly` | paho/session/state/state.go:525-561 | The packets written without asking for a connection are those sent without one |
| `Exchanges.SendQoS1` | paho/session/state/state.go:354-438 | A QoS 1 exchange stores the packet under a fresh identifier; PUBACK answers the caller and leaves the session as it was |
| `Exchanges.SendQoS2` | paho/session/state/state.go:354-561 | A QoS 2 exchange: PUBREL replaces the PUBLISH, and PUBCOMP answers the caller and leaves the session as it was |
| `Exchanges.ReadyWhenFree` | paho/session/state/state.go:354-415 | With a live connection a free slot and identifier are all an exchange needs |
| `Exchanges.ReceiveQoS1` | paho/session/state/state.go:455-597 | A QoS 1 message is delivered every time it comes; its acknowledgement is a PUBACK while the connection is set and nothing otherwise; nothing is remembered |
| `Exchanges.ReceiveQoS2` | paho/session/state/state.go:455-627 | A QoS 2 message is delivered once, its duplicate only acknowledged, and its PUBREL leaves nothing of it behind |
| `AcksTracker.Tracker.Add` | paho/acks_tracker.go:34-45 | Appended unless an entry with the identifier is there |
| `AcksTracker.Tracker.MarkAsAcked` | paho/acks_tracker.go:47-59 | The entry is marked; an untracked packet is reported |
| `AcksTracker.Tracker.Flush` | paho/acks_tracker.go:61-82 | Takes exactly the acknowledged prefix |
| `AcksTracker.SentInOrder` | paho/acks_tracker.go:34-89 | Over every run what was flushed followed by what is pending is what was accepted, in order; everything flushed was marked, nothing twice |
| `AcksTracker.FlushSendsAll` | paho/acks_tracker.go:61-82 | After a flush the head is unacknowledged or there is none, and a message has been flushed exactly when it and all before it are marked |
| `AcksTracker.AcceptsExactly` | paho/acks_tracker.go:34-45 | A message is accepted exactly when no tracked one has its identifier |
| `AcksTracker.MarksExactly` | paho/acks_tracker.go:47-59 | Marking sets the mark of the message with the identifier and changes nothing else |
| `Messages.MessageRoundTrip` | paho/cp_publish.go:54-114 | No field is lost on the way to the packet and back |
| `Messages.PacketRoundTripsExactly` | paho/cp_publish.go:54-114 | A packet survives the conversions exactly when it has no properties but those of a message |
| `Messages.MessageCodes` | paho/cp_publish.go:91-114 | Each property of a message under the code the standard gives it |
| `PublishQueue.Queue.Wait` | autopaho/queue/memory/queue.go:43-54 | The channel is closed at once exactly when there is a message, and queued otherwise |
| `PublishQueue.Queue.WaitForEmpty` | autopaho/queue/memory/queue.go:57-68 | The channel is closed at once exactly when the queue is empty, and queued otherwise |
| `PublishQueue.Queue.Enqueue` | autopaho/queue/memory/queue.go:71-85 | The message goes to the end and exactly the waiting channels are closed, none twice |
| `PublishQueue.Queue.Peek` | autopaho/queue/memory/queue.go:88-107 | The oldest message, which stays |
| `PublishQueue.Queue.Remove` | autopaho/queue/memory/queue.go:115-142 | The oldest message goes; when the queue is then empty everybody waiting for that is told |
| `QueueWorker.PublishViaQueue` | autopaho/auto.go:488-494 | The encoded message is queued, or refused when it cannot be encoded |
| `QueueWorker.DrainOne` | autopaho/auto.go:570-656 | One turn: the oldest entry is handed over, discarded or left, and removed exactly in the first two cases; where the worker goes after an error or a panic |
| `QueueWorker.Drain` | autopaho/auto.go:560-658 | The inner loop over a queue and a list of attempts: what it leaves, the fates it met and why it ended |
| `QueueWorker.Serve` | autopaho/auto.go:557-658 | The loop over the wake-ups of one connection: what it leaves, the fates it met and why it ended |
| `QueueWorker.ManagePublishQueue` | autopaho/auto.go:541-660 | The loop over connections: what it leaves, the fates it met and whether the context was done, the worker crashed or the connections ran out |
| `QueueWorker.ManagedInOrder` | autopaho/auto.go:541-660 | Over all its connections the worker takes messages off the front, each once and in order, and gives each a fate that some attempt at it had |
| `QueueWorker.DecodedExactly` | autopaho/auto.go:590-610 | The worker reads the message that was queued, up to truncation, exactly when its QoS has two bits |
| `QueueWorker.HandledAsDue` | paho/client.go:840-902 | What the worker reads goes, as the PublishHook makes it, to the session with QoS 1 or 2 and to the connection with QoS 0, or is refused for the server; a message with a two-bit QoS is never undecodable |
| `QueueWorker.HandledExactly` | paho/client.go:840-902 | In one attempt a queued message is discarded exactly when it is beyond the limits of the server, left exactly when the session or connection did not take it, and otherwise handed over |
| `QueueWorker.HookedExactly` | paho/client.go:840-902 | The same with any PublishHook, and when the worker crashes |
| `QueueWorker.TurnExactly` | autopaho/auto.go:622-652 | After which attempts the worker waits for the next connection or stops |
| `QueueWorker.DrainsAll` | autopaho/auto.go:570-658 | With as many attempts as messages and nothing going wrong every message within the limits is handed over, in order, and only the others are discarded |
| `QueueWorker.UndecodableExactly` | autopaho/auto.go:592-610 | An entry is discarded as undecodable exactly when it is no PUBLISH, and the worker goes on |
| `QueueWorker.Conservation` | autopaho/auto.go:541-660 | Over every run with messages arriving at any time each accepted message has met exactly one fate, the one due to what was read, or is still queued, also when a hooked packet that cannot be encoded makes the store panic; fates come in order of acceptance |
| `QueueWorker.FatesAreFinal` | autopaho/auto.go:541-660 | Later events never change a fate |
| `QueueWorker.HandedOverUnchanged` | autopaho/auto.go:611-618 | A message whose strings fit comes out of the queue with the same topic, payload, QoS, retain flag and properties |
| `QueueWorker.HandedOverStorable` | paho/client.go:880-902 | Without a hook the session can store it under any identifier and send it again |
| `Pinger.KeepsTransmitting` | paho/pinger.go:92-162 | While the pinger runs no gap between client transmissions exceeds the keep-alive interval |
| `Pinger.NoticesSilence` | paho/pinger.go:92-162 | It has returned, and any timeout is reported, within two intervals of the last packet from the server or its start |
| `Pinger.TimesOutOnlyUnanswered` | paho/pinger.go:118-121 | A timeout means a PINGREQ of this run was sent one interval earlier and not answered since |
| `Pinger.TimesOutExactly` | paho/pinger.go:101-121 | The pinger gives up exactly when its timer fires for the first time after a PINGREQ and no PINGRESP has been handled since that was sent |
| `Pinger.NeverTimesOut` | paho/pinger.go:92-162 | If a PINGRESP follows every PINGREQ before the timer fires again, the pinger never times out over the whole run |
| `Pinger.PingsExactly` | paho/pinger.go:105-137 | A firing that does not give up sends a PINGREQ exactly when nothing was sent, or nothing received, during the last interval |
| `Pinger.EndsExactly` | paho/pinger.go:99-141 | When and why a pinger stops running |
| `Pinger.RunningSince` | paho/pinger.go:90-92 | The interval of a pinger is the keep-alive it was started with, in seconds |
| `Pinger.StartsAtOnce` | paho/pinger.go:71-92 | The first check is at once, and keep-alive 0 starts nothing |
| `Pinger.DefaultPinger.Run` | paho/pinger.go:71-144 | The loop with its timer, and the early returns, against the state machine |
| `Router.JoinSplit` | paho/router.go:180-198 | Splitting loses nothing and no level contains a slash |
| `Router.SplitJoin` | paho/router.go:180-198 | Splitting is the inverse of joining slash-free levels |
| `Router.MatchDeepCorrect` | paho/router.go:157-174 | matchDeep holds if and only if the filter rule does |
| `Router.FilterRule` | paho/router.go:153-198 | match on strings is the filter rule on their levels |
| `Router.SharedMatches` | paho/router.go:176-191 | A shared filter includes exactly the topics its filter does |
| `Router.SharedLevelsExactly` | paho/router.go:180-191 | Its levels are those of its filter exactly when that is not empty and not itself shared |
| `Router.SplitPanicsExactly` | paho/router.go:180-191 | Splitting a filter panics exactly when it starts with $share and has no slash |
| `Router.EmptyTopicMatches` | paho/router.go:153-198 | The empty topic is matched exactly by the empty filter and by those whose levels are none or start with # |
| `Router.MatchesItself` | paho/router.go:153-155 | Every topic is matched by itself as a filter |
| `Router.CalledAsRegistered` | paho/router.go:121-131 | Every handler of the matching filters is called as often as it is registered for them |
| `Router.StandardRouter.Route` | paho/router.go:99-136 | Alias resolved, every handler of every matching filter called once per registration, the default handler exactly when none was; it panics exactly when a registered filter other than the topic starts with $share and has no slash |
| `TopicAliases.HookPanicsExactly` | paho/extensions/topicaliases/topicliases.go:96-122 | When the hook indexes its table out of range |
| `TopicAliases.TAHandler.FindAlias` | paho/extensions/topicaliases/topicliases.go:49-57 | The first slot with the topic, or 0 |
| `TopicAliases.TAHandler.NewAlias` | paho/extensions/topicaliases/topicliases.go:60-72 | The first free slot is taken; a full table panics |
| `TopicAliases.TAHandler.ResetAll` | paho/extensions/topicaliases/topicliases.go:85-90 | Every slot is freed |
| `TopicAliases.TAHandler.PublishHook` | paho/extensions/topicaliases/topicliases.go:96-122 | The message and the table after the hook |
| `TopicAliases.AliasesResolve` | paho/router.go:106-120 | Over every sequence of messages and reconnections that meets no full table the receiver resolves every message that had a topic to it |
| `TopicAliases.SlotsSuffice` | paho/extensions/topicaliases/topicliases.go:96-122 | Over one connection no full table is met exactly when the messages use no more topics than there are aliases |
| `TopicAliases.HookShortensExactly` | paho/extensions/topicaliases/topicliases.go:96-122 | A topic is replaced exactly when the table has it, by the alias it has there; otherwise it is given a free one |
| `TopicAliases.OwnAliasUsed` | paho/extensions/topicaliases/topicliases.go:96-103 | After a message with an alias of its own its topic is replaced in messages without one |
| `TopicAliases.MaximumDisables` | paho/extensions/topicaliases/topicliases.go:30-35 | A maximum of 65535 wraps to a table without slots and messages pass unchanged |

## Left out

- PacketBuffers.ReadPacket: as Stream.ReadPacket, without the bodies named there.
- Retransmission.NoPublishAfterPubrec: a PUBLISH with a reason string, one that cannot be encoded and one with a QoS above 3 are no events of a run; `SessionRuns.StorableExactly` says what becomes of the first, and the client refuses a QoS above 2.
- QueueWorker.DrainOne: errors of the queue itself, which the memory queue does not have, and the pauses between attempts.
- The rule of section 4.7.2 of MQTT 5.0 on topics starting with $, which the source does not implement.
- GetTopic in `paho/extensions/topicaliases/topicliases.go`, a bounds check and a lookup.
- Stream.ReadPacket: the bodies of CONNACK, SUBACK, UNSUBACK, PINGREQ, PINGRESP, DISCONNECT and AUTH are not modelled, and a packet of such a type reads as an unknown one. The session and the queue worker treat both alike.
- SessionState.State.AddPublish: the check for a connection and the waiting in Acquire before it are events of the state machine, not part of this method.
- Pinger.KeepsTransmitting: timers are ideal and handling takes no time, and a PINGREQ counts as transmitted when it is started.
- TopicAliases.AliasesResolve: a message without a topic is resolved to whatever the receiver has for its alias, and nothing is claimed for it.
- PackBuf in `packets/properties.go`, a textual copy of Pack.
- `tidy` in `paho/session/state/state.go`, which has no caller.
- The file-backed store and queue, whose order depends on file times; the memory versions carry the same contract.
- Dialling, TLS, websockets, backoff, goroutines, contexts, loggers and callbacks of the client and the connection manager.
- The request/response extension, whose correlation data come from the clock.
