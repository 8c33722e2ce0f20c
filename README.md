# espgohome: the client connection of the ESPHome native API, in Dafny

espgohome is a Go client for the ESPHome native API. This project models its core:

- **The frame codec.** A frame is a 0x00 preamble, the payload length as an unsigned varint, the message type as an unsigned varint, and then the payload. `encodeMessage` builds frames and `receiveMessage` reads them.
- **The message catalog.** This is the MessageID table, which `message.go` and `messageid.go` each declare. Both declare the same 48 ids; the model declares them once. It also covers `decodeMessage`'s dispatch from a numeric type to the schema the bytes are decoded as.
- **`ESPHomeConnection`.** This covers the closed flag, the socket, and the registry of receiving channels with their message-type filters. It also covers the receive loop that fans each incoming message out to the channels whose filter holds its type, and the request methods built on that loop: Hello, Connect, Disconnect, DeviceInfo, Ping, ListEntities, SwitchCommand, SubscribeStates and SubscribeLogs.
- **The entity classification `GetEntityType`** and the `EntityID` enum.

The model is split into modules:

- `Wire`: bytes, 64-bit integers, read errors.
- `Varint`: Go's `binary.PutUvarint` and `binary.ReadUvarint`. These are functions that state what is read or written, plus loop methods proved equal to them.
- `Catalog`: message ids, schemas, `decodeMessage`.
- `Frames`: encodeMessage and receiveMessage, and a stream of frames read one after another.
- `Registry`: the `receivers` map as values.
- `Entities`: EntityID, GetEntityType, and what ListEntities gathers.
- `Api`: the `Connection` class, whose methods update the closed flag, the socket and the registry in place.
- `Delivery`: lemmas on what the receive loop hands to whom.
- `Scenarios`: the sessions of the Go tests, as methods whose contracts are the tests' expectations.

The Go program's concurrency is modelled as follows:

- **The receive loop goroutine** becomes a method that consumes the sequence of results that successive `receiveMessage` calls return. `Frames.ReadFrames` ties that sequence to the bytes the peer sent.
- **Each blocking receive** on a channel in a request method is a parameter. It holds the event the channel yields: a delivered message, or the channel's closure.
- **Channels** are sink ids handed out in the order `make` creates them.
- **The socket** is the sequence of bytes written to it, plus whether it is still open. A `Write` after `Close` fails, the error is ignored, and nothing is written.
- **Foreign code is passed in as parameters:**
  - the outcome of `proto.Marshal` (the `Marshalled` value);
  - whether `proto.Unmarshal` accepts the bytes for a schema (`Unmarshaller`);
  - the `InvalidPassword` field accessor of a ConnectResponse.

Behaviour of the code worth noting, which the model keeps:

- **Short payload read.** The payload is read with a single `bufio.Reader.Read`. Getting fewer bytes than announced is an error, even if the rest would arrive later.
- **Stream ends inside a varint.** `binary.ReadUvarint` is modelled as current Go releases implement it: a stream that ends after the first byte of a varint gives `io.ErrUnexpectedEOF`, which does not stop the receive loop, and a varint longer than ten bytes, or a tenth byte above 1, is an overflow error. Older releases returned `io.EOF` in the middle of a varint and read varints of any length; that behaviour is not modelled.
- **Stream ends right after a preamble byte.** The length varint then reads no byte, so this is `io.EOF`, and the receive loop stops (`Delivery.PreambleThenEndIsEof`).
- **Failed reads are still dispatched.** The receive loop decodes and dispatches even a failed read, as message type 0 with a nil message. Only `io.EOF` or the closed flag stops it.
- **No closed check.** `SwitchCommand`, `SubscribeStates` and `SubscribeLogs` do not check the closed flag.
- **Write errors are dropped.** `sendMessage` drops the error of `conn.Write`.

## Model

| member | source | states |
|---|---|---|
| Varint.DecodeUvarint | api.go:137-145 | reading a varint consumes at least one and at most ten bytes of a non-empty input; any value read fits in 64 bits; an empty input is io.EOF |
| Varint.ReadUvarint | api.go:137-145 | the byte-by-byte read loop returns exactly the value, error and consumed length that DecodeUvarint specifies, including EOF, unexpected EOF and the overflow cases |
| Varint.UvarintShape | api.go:75-79 | the varint written for a value (Uvarint) is never empty, is one byte exactly for values below 0x80, has the continuation bit set on every byte but the last, and not on the last |
| Varint.UvarintRoundTrip | api.go:72-79 | for every 64-bit value, the varint written for it is 1 to 10 bytes long, and reading it back yields that value and consumes exactly those bytes, whatever follows |
| Varint.PutUvarint | api.go:75-79 | the write loop produces the encoding of x, at most MaxVarintLen64 bytes, and reading it back gives x |
| Catalog.IdOf | message.go:14-63 | every message type has an id between 1 and 48 |
| Catalog.IdsAreOneTo48 | messageid.go:5-54 | the ids in use are exactly 1 to 48 |
| Catalog.IdOfInjective | message.go:14-63 | no two message types share an id |
| Catalog.ResponseIdFollowsRequestId | messageid.go:6-15 | for Hello, Connect, Disconnect, Ping and DeviceInfo, the response id is the request id plus one |
| Catalog.IdTaken | messageid.go:5-54 | every id from 1 to 48 belongs to some message type |
| Catalog.SchemaOfIdOf | message.go:65-262 | decodeMessage's switch maps each message type's id back to that message type |
| Catalog.IdOfSchemaOf | message.go:65-262 | whatever type the switch picks for an id carries that id |
| Catalog.SchemaOf | message.go:65-262 | decodeMessage's switch finds a type exactly for ids 1 to 48; every other id falls to the default |
| Catalog.DecodeMessage | message.go:65-262 | a message exists exactly for ids 1 to 48, and it has the id's type and the raw bytes; its error is nil exactly when unmarshalling accepts the bytes; an unknown id gives a nil message and an "unsupported message" error |
| Catalog.RequestsDecode | message.go:231-234 | request ids decode as well as responses: a HelloRequest frame's type decodes to a HelloRequest |
| Frames.Frame | api.go:71-80 | a frame starts with the zero preamble, ends with the payload, and adds at least 3 and at most 21 bytes of header |
| Frames.EncodeMessage | api.go:65-83 | a marshalling error yields no buffer; otherwise the buffer is the preamble, the length varint, the type varint and the payload, of exactly the sum of those lengths |
| Frames.ParseFrame | api.go:128-156 | a read consumes no more than is there, and something from any non-empty input; on error, type 0 and no payload; on success, the payload is the last bytes consumed |
| Frames.ReceiveMessage | api.go:128-156 | reading the preamble, both varints and the payload step by step gives exactly ParseFrame's result and consumption |
| Frames.FrameRoundTrip | api.go:128-156 | receiveMessage reads back exactly the type and payload that encodeMessage framed, consuming exactly the frame, whatever follows it |
| Frames.ReceiveErrors | api.go:128-135 | an empty reader is io.EOF; a non-zero first byte is an invalid preamble, consuming one byte; a lone zero byte ends in io.EOF |
| Frames.ShortPayloadRejected | api.go:149-153 | a frame cut anywhere inside its payload is a short-read error with no message type, consuming the bytes that were there |
| Frames.ReadFrames | api.go:99-103 | successive reads of a byte stream end with the read that meets the empty reader, io.EOF, after at most one read per byte |
| Frames.ReadFramesOfStream | api.go:99-103 | frames written one after another are read back one by one, in order and without error, followed by io.EOF |
| Registry.Added | api.go:159-170 | AddReceiver unites r's filter with the given ids; r gets an entry exactly when it had one or some ids were given; no other channel changes |
| Registry.AddedOneMore | api.go:164-169 | setting the filter entries one at a time, as AddReceiver's loop does, gives the same registry as adding them all at once |
| Registry.Removed | api.go:173-175 | RemoveReceiver deletes r and its whole filter, changes nothing when r is absent, and leaves every other channel alone |
| Registry.AddedThenRemoved | api.go:200-206 | a channel registered fresh and removed again leaves the registry exactly as it was before the request |
| Registry.Recipients | api.go:114-119 | a message of type t goes only to registered channels, and to each exactly when its filter holds t |
| Registry.RecipientsAfterAdd | api.go:114-119 | after registering r for some ids, r receives exactly the types in its old filter and in those ids; the other channels' deliveries are unchanged |
| Registry.RecipientsAfterRemove | api.go:114-119 | after removing r, each message goes to the same channels as before except r |
| Entities.Value | api.go:305-320 | each EntityID has a value 0 to 9, and 0 only for UndefinedEntity |
| Entities.ValueInjective | api.go:309-320 | no two EntityID constants share a value |
| Entities.GetEntityType | api.go:322-345 | GetEntityType gives a defined kind exactly to the nine entity messages, and UndefinedEntity to everything else; a defined kind names the message it was given |
| Entities.EntityTypeRoundTrip | api.go:322-345 | each entity message has its own kind and each defined kind its own message: GetEntityType and the kind-to-message map are inverse |
| Entities.EntitiesAreListReplies | api.go:349-360 | every entity message's id is among those ListEntities registers for |
| Entities.ListEnd | api.go:368-383 | ListEntities' loop ends at the first event that is the channel's closure or the Done message |
| Entities.EntityMessages | api.go:366-383 | the gathered list is no longer than the events, and holds only entity messages |
| Entities.EntityMessagesMembers | api.go:374-382 | a message is gathered exactly when some event delivered it and it is an entity |
| Entities.EntityMessagesAppend | api.go:378-379 | gathering keeps arrival order: the entities from two runs of events are the concatenation of each run's |
| Entities.DoneIsNotGathered | api.go:375-377 | the Done message is never among the gathered entities |
| Api.Sent | api.go:85-97 | the bytes sendMessage writes read back as exactly the request's type and payload; nothing is written after a marshalling error or on a closed socket |
| Api.FirstEof | api.go:100-106 | the receive loop's stopping read is the first one that returned io.EOF |
| Api.Connection.constructor | api.go:52-63 | a connection starts open, not closed, with no receivers and nothing written |
| Api.Connection.MakeSink | api.go:181 | a new channel is one that no filter names yet |
| Api.Connection.AddReceiver | api.go:159-170 | the loop leaves the registry as Added specifies, and changes nothing else |
| Api.Connection.RemoveReceiver | api.go:173-175 | the registry becomes Removed, and nothing else changes |
| Api.Connection.SendMessage | api.go:85-97 | no error exactly when marshalling succeeded; exactly the encoded frame is appended to the socket if it is open; nothing else changes |
| Api.Connection.SendMessageGetResponse | api.go:177-185 | on a closed connection: ErrorClosed, and nothing registered or written; otherwise a new channel registered for the response types, the request written, and no error whatever sending did |
| Api.Connection.Exchange | api.go:197-217 | the shared request/response step writes the request only when not closed, returns the delivered message, or ErrorClosed on a closed connection or channel, and leaves the registry as it found it |
| Api.Connection.Hello | api.go:197-217 | Hello writes the HelloRequest frame only when not closed, succeeds exactly when a response arrives, fails only with ErrorClosed, and leaves the registry unchanged |
| Api.Connection.Connect | api.go:219-246 | Connect writes the ConnectRequest frame; a refused password closes the socket and the connection with an invalid-password error; an accepted one succeeds and changes no state; a closed connection or channel is ErrorClosed |
| Api.Connection.Disconnect | api.go:248-271 | Disconnect writes its frame; a response closes the connection and the socket; a closed connection or channel is ErrorClosed and changes nothing |
| Api.Connection.DeviceInfo | api.go:273-292 | DeviceInfo returns exactly the DeviceInfoResponse that arrived, or ErrorClosed with no response |
| Api.Connection.Ping | api.go:395-413 | Ping writes its frame only when not closed, succeeds exactly when the response arrives, and fails only with ErrorClosed |
| Api.Connection.GatherEntities | api.go:366-385 | the loop returns the entity messages among the events before the end, in arrival order, and reports whether the end was the channel's closure |
| Api.Connection.ListEntities | api.go:347-386 | ListEntities writes its request, returns the entities gathered before Done or closure, gives ErrorClosed exactly when the channel closed first, and removes its channel on every path |
| Api.Connection.SwitchCommand | api.go:388-393 | the command frame is written whatever the closed flag says; the error reports only marshalling |
| Api.Connection.SubscribeStates | api.go:415-430 | a new channel is registered for the nine state responses and the request written, with no closed check |
| Api.Connection.SubscribeLogs | api.go:432-438 | a new channel is registered for log responses and the request written, with no closed check |
| Api.Connection.Dispatch | api.go:114-119 | the fan-out serves every channel whose filter holds the type, each exactly once, and no other |
| Api.Connection.CloseReceivers | api.go:122-125 | shutdown closes every registered channel exactly once |
| Api.Connection.ReceiveLoop | api.go:99-126 | the loop stops at the first io.EOF, or at once when already closed; each earlier read, failed or not, is decoded and handed to exactly its recipients; afterwards the connection is closed, the socket shut, and every channel closed |
| Delivery.OtherErrorsDoNotStop | api.go:103-110 | read errors other than io.EOF do not stop the receive loop |
| Delivery.FailedReadDispatchedAsTypeZero | api.go:108-119 | a failed read is decoded as type 0, which gives a nil message and an unsupported error; it reaches no channel unless some filter holds 0 |
| Delivery.DeliveredMessagesMatchFilter | api.go:112-119 | a channel registered for real ids only receives non-nil messages whose type is in its filter, carrying the frame's payload |
| Delivery.SingleTypeChannelGetsThatSchema | api.go:205-210 | the channel of a request method only ever gets a message of its response type, so the method's type assertion holds |
| Delivery.StreamStopsAfterLastFrame | api.go:99-106 | over a stream of frames, the loop delivers one error-free reception per frame, in order, and stops at the read after the last frame |
| Delivery.PreambleThenEndIsEof | api.go:137-140 | a stream that ends right after a preamble byte reads as io.EOF and stops the loop |
| Scenarios.Basics | api_test.go:14-59 | Hello on a fresh connection succeeds; its bytes read back as one HelloRequest frame, which decodes to a HelloRequest carrying the payload |
| Scenarios.BadPassword | api_test.go:139-161 | with the password refused, Connect fails; a second Connect is ErrorClosed and writes nothing |
| Scenarios.GoodPassword | api_test.go:163-182 | with the password accepted, Hello and Connect succeed and the connection stays open |
| Scenarios.UnexpectedClose | api_test.go:184-202 | Connect writes its ConnectRequest frame and, when the peer goes away and the receive loop closes its channel, returns ErrorClosed; a later Connect is refused without writing |
| Scenarios.DisconnectThenPing | api.go:248-271 | after a completed Disconnect, Ping is refused with ErrorClosed |

## Left out

- **Dial and Pipe:** network errors from `net.Dial` and the socket pair of `Pipe` are not modelled. The constructor is the state either leaves behind; a second Dial on the same connection is not modelled.
- **Goroutines and blocking:** the receive loop and the request methods run one after another, not interleaved. Channel blocking and the unsynchronised accesses to `receivers` and `closed` (data races in Go) are not modelled. Each receive is an event parameter, and the order "register, then write" holds only in this sequential reading.
- **Type assertions:** the `raw.(*XResponse)` assertions in the request methods are the precondition `Answers`. A wrong type would panic in Go. `Delivery.SingleTypeChannelGetsThatSchema` shows that the receive loop can only deliver the right type to those channels.
- **Foreign code:** Protocol Buffers marshalling, unmarshalling and field access are parameters. Message contents are the raw payload bytes.
- **Debug logging:** `logMessage`, `log.Printf` and the `Debug` flag are left out. This includes the `buf.Len()` call on a nil buffer that `sendMessage` makes when Debug is set and marshalling fails.
- **bufio behaviour:** the payload read returns what the reader holds, up to the announced size. Go's `bufio.Reader.Read` may return fewer bytes when its buffer is smaller than the payload or the data has not yet arrived; that case is not distinguished. Read errors from the socket other than the end of the stream (`Transport`) are not produced by `ParseFrame`.
- **Allocation:** `make([]byte, size)` for a huge announced size, which can fail in Go, is not modelled.
- **The Entity interface:** it is the nine `ListEntities*Response` messages. `ListEntitiesServicesResponse` has no object id, so it is taken to fall to the default branch and be skipped by ListEntities.
- **Other code:** the mock server of the tests and the command-line program `cmd/espgohome/main.go` are not part of this model.
- Api.Connection.ReceiveLoop: requires the connection to be closed already or the receptions to hold an io.EOF. A loop that never stops while the peer keeps the connection open is not modelled; only its finite prefixes are, through the lemmas in `Delivery`.
- Api.Connection.ListEntities: requires the events to hold a Done message or the channel's closure. A channel that never yields either would block forever in Go, and that case is not modelled.
