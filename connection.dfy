/**
 * ESPHomeConnection: the client side of one ESPHome native API connection. Its
 * state is the closed flag, the socket (open or closed, and the bytes written to
 * it), the registry of receiving channels, and the channels made so far.
 *
 * The receive loop runs in its own goroutine in Go; here it is a method that
 * consumes the sequence of receiveMessage results. Every blocking channel receive
 * in a request method is an event parameter: the message the channel delivered, or
 * its closure.
 */
module Api {
  import opened Wire
  import opened Catalog
  import opened Frames
  import opened Registry
  import opened Entities

  /** The errors the connection's methods return. */
  datatype ApiError =
    | ErrorClosed       // ErrorClosed: "Connection closed"
    | InvalidPassword   // "invalid password"
    | MarshalError      // the error proto.Marshal returned

  /** One message of the receive loop and the sinks it was handed to, in the order they were served. */
  datatype Batch = Batch(msg: Option<Message>, sinks: seq<SinkId>)

  /** The bytes sendMessage puts on the socket: the frame, if marshalling succeeded and the socket is open. */
  function Sent(open: bool, body: Marshalled, t: MessageId): (bs: seq<Byte>)
    ensures body.Marshalled? && open ==> ParseFrame(bs) == Parsed(Reception(t, body.bytes, None), |bs|)
    ensures !open || body.MarshalFailed? ==> bs == []
  {
    if open && body.Marshalled? then
      FrameRoundTrip(body.bytes, t, []);
      assert Frame(body.bytes, t) + [] == Frame(body.bytes, t);
      Frame(body.bytes, t)
    else []
  }

  /** A delivered message is of the type the request method asserts it to be (a failed assertion panics). */
  predicate Answers(ev: SinkEvent, s: Schema)
  {
    ev.Delivered? ==> ev.msg.Some? && ev.msg.value.schema == s
  }

  predicate HasEof(rcv: seq<Reception>)
  {
    exists k :: 0 <= k < |rcv| && rcv[k].err == Some(EOF)
  }

  /** The index of the first read that returned io.EOF. */
  function FirstEof(rcv: seq<Reception>): (k: nat)
    requires HasEof(rcv)
    ensures k < |rcv| && rcv[k].err == Some(EOF)
    ensures forall j :: 0 <= j < k ==> rcv[j].err != Some(EOF)
  {
    if rcv[0].err == Some(EOF) then 0
    else
      var k :| 0 <= k < |rcv| && rcv[k].err == Some(EOF);
      assert HasEof(rcv[1..]) by { assert rcv[1..][k - 1].err == Some(EOF); }
      1 + FirstEof(rcv[1..])
  }

  /** What the receive loop does with one reception: decode it and hand it to exactly its recipients. */
  predicate Delivers(rs: Receivers, rd: Reception, unmarshal: Unmarshaller, b: Batch)
  {
    && b.msg == DecodeMessage(rd.payload, rd.msgType, unmarshal).msg
    && Distinct(b.sinks)
    && (set r | r in b.sinks) == Recipients(rs, rd.msgType)
  }

  /** The message types SubscribeStates subscribes to. */
  const StateIds: seq<MessageId> := [
    BinarySensorStateResponseID,
    CoverStateResponseID,
    FanStateResponseID,
    LightStateResponseID,
    SensorStateResponseID,
    SwitchStateResponseID,
    TextSensorStateResponseID,
    HomeAssistantStateResponseID,
    ClimateStateResponseID
  ]

  class Connection {
    /** Set once the receive loop has stopped, the password was refused, or Disconnect completed. */
    var closed: bool
    /** Whether conn.Close has not been called yet. */
    var transportOpen: bool
    var receivers: Receivers
    /** The number of channels made so far; the next one gets this id. */
    var nextSink: SinkId
    /** Every byte conn.Write has put on the socket. */
    var written: seq<Byte>

    /**
     * Only channels already made are registered, and the socket is closed only
     * together with the closed flag being set.
     */
    predicate Valid()
      reads this
    {
      && (forall r :: r in receivers ==> r < nextSink)
      && (!closed ==> transportOpen)
    }

    /** The connection as Dial (or Pipe) leaves it: open, not closed, no receivers. */
    constructor ()
      ensures Valid()
      ensures !closed && transportOpen
      ensures receivers == map[] && nextSink == 0 && written == []
    {
      closed := false;
      transportOpen := true;
      receivers := map[];
      nextSink := 0;
      written := [];
    }

    /** make(chan proto.Message): a channel no one has registered yet. */
    method MakeSink() returns (r: SinkId)
      requires Valid()
      modifies this
      ensures Valid()
      ensures r == old(nextSink) && r !in receivers && nextSink == r + 1
      ensures closed == old(closed) && transportOpen == old(transportOpen)
      ensures receivers == old(receivers) && written == old(written)
    {
      r := nextSink;
      nextSink := nextSink + 1;
    }

    /** AddReceiver: sets each filter entry in turn, creating r's filter at the first one. */
    method AddReceiver(r: SinkId, fs: seq<MessageId>)
      modifies this
      ensures receivers == Added(old(receivers), r, fs)
      ensures closed == old(closed) && transportOpen == old(transportOpen)
      ensures nextSink == old(nextSink) && written == old(written)
    {
      var i := 0;
      while i < |fs|
        invariant 0 <= i <= |fs|
        invariant receivers == Added(old(receivers), r, fs[..i])
        invariant closed == old(closed) && transportOpen == old(transportOpen)
        invariant nextSink == old(nextSink) && written == old(written)
      {
        var f := fs[i];
        ghost var before := receivers;
        if r !in receivers {
          receivers := receivers[r := {}];
        }
        receivers := receivers[r := receivers[r] + {f}];
        assert receivers == before[r := FilterOf(before, r) + {f}];
        assert Types([f]) == {f};
        assert receivers == Added(before, r, [f]);
        AddedOneMore(old(receivers), r, fs[..i], f);
        assert fs[..i + 1] == fs[..i] + [f];
        i := i + 1;
      }
      assert fs[..i] == fs;
    }

    /** RemoveReceiver: delete(c.receivers, r). */
    method RemoveReceiver(r: SinkId)
      modifies this
      ensures receivers == Removed(old(receivers), r)
      ensures closed == old(closed) && transportOpen == old(transportOpen)
      ensures nextSink == old(nextSink) && written == old(written)
    {
      receivers := receivers - {r};
    }

    /**
     * sendMessage: encode, then write. A marshalling error is returned; the result
     * of conn.Write is ignored, and a write to a closed socket puts nothing on it.
     */
    method SendMessage(body: Marshalled, t: MessageId) returns (err: Option<ApiError>)
      modifies this
      ensures err.None? <==> body.Marshalled?
      ensures err.Some? ==> err == Some(MarshalError)
      ensures written == old(written) + Sent(transportOpen, body, t)
      ensures closed == old(closed) && transportOpen == old(transportOpen)
      ensures receivers == old(receivers) && nextSink == old(nextSink)
    {
      var buf := EncodeMessage(body, t);
      if buf.None? {
        return Some(MarshalError);
      }
      if transportOpen {
        written := written + buf.value;
      }
      return None;
    }

    /**
     * sendMessageGetResponse: on a closed connection, ErrorClosed and nothing else;
     * otherwise a new channel registered for respTypes, then the request sent (its
     * error is dropped), and the channel returned.
     */
    method SendMessageGetResponse(body: Marshalled, t: MessageId, respTypes: seq<MessageId>)
      returns (r: Option<SinkId>, err: Option<ApiError>)
      requires Valid()
      modifies this
      ensures Valid()
      ensures old(closed) ==> r.None? && err == Some(ErrorClosed)
      ensures old(closed) ==> receivers == old(receivers) && nextSink == old(nextSink) && written == old(written)
      ensures !old(closed) ==> r == Some(old(nextSink)) && err.None? && old(nextSink) !in old(receivers)
      ensures !old(closed) ==> receivers == Added(old(receivers), old(nextSink), respTypes)
      ensures !old(closed) ==> nextSink == old(nextSink) + 1 && written == old(written) + Sent(transportOpen, body, t)
      ensures closed == old(closed) && transportOpen == old(transportOpen)
    {
      if closed {
        return None, Some(ErrorClosed);
      }
      var sink := MakeSink();
      AddReceiver(sink, respTypes);
      var _ := SendMessage(body, t);
      return Some(sink), None;
    }

    /**
     * The exchange Hello, Connect, Disconnect, DeviceInfo and Ping share: send the
     * request on a fresh channel registered for the response type, wait for one
     * event on it, remove the channel. The channel's closure is ErrorClosed.
     */
    method Exchange(body: Marshalled, reqType: MessageId, respType: MessageId, ev: SinkEvent)
      returns (resp: Option<Message>, err: Option<ApiError>)
      requires Valid()
      modifies this
      ensures Valid()
      ensures nextSink == if old(closed) then old(nextSink) else old(nextSink) + 1
      ensures old(closed) ==> err == Some(ErrorClosed) && written == old(written)
      ensures !old(closed) ==> written == old(written) + Sent(transportOpen, body, reqType)
      ensures !old(closed) && ev.Delivered? ==> resp == ev.msg && err.None?
      ensures old(closed) || ev.SinkClosed? ==> resp.None? && err == Some(ErrorClosed)
      ensures receivers == old(receivers) && closed == old(closed) && transportOpen == old(transportOpen)
    {
      var r, e := SendMessageGetResponse(body, reqType, [respType]);
      if e.Some? {
        return None, e;
      }
      RemoveReceiver(r.value);
      AddedThenRemoved(old(receivers), r.value, [respType]);
      if ev.SinkClosed? {
        return None, Some(ErrorClosed);
      }
      return ev.msg, None;
    }

    /** Hello: the HelloRequest / HelloResponse exchange. */
    method Hello(body: Marshalled, ev: SinkEvent) returns (err: Option<ApiError>)
      requires Valid() && Answers(ev, HelloResponse)
      modifies this
      ensures Valid()
      ensures nextSink == if old(closed) then old(nextSink) else old(nextSink) + 1
      ensures old(closed) ==> err == Some(ErrorClosed) && written == old(written)
      ensures !old(closed) ==> written == old(written) + Sent(transportOpen, body, HelloRequestID)
      ensures !old(closed) ==> (err.None? <==> ev.Delivered?)
      ensures err.Some? ==> err == Some(ErrorClosed)
      ensures receivers == old(receivers) && closed == old(closed) && transportOpen == old(transportOpen)
    {
      var _, e := Exchange(body, HelloRequestID, HelloResponseID, ev);
      return e;
    }

    /**
     * Connect: the ConnectRequest / ConnectResponse exchange. A response with
     * InvalidPassword set closes the socket and the connection. The field accessor is
     * foreign, so invalidPassword reads it from the response's bytes.
     */
    method Connect(body: Marshalled, ev: SinkEvent, invalidPassword: seq<Byte> -> bool) returns (err: Option<ApiError>)
      requires Valid() && Answers(ev, ConnectResponse)
      modifies this
      ensures Valid()
      ensures nextSink == if old(closed) then old(nextSink) else old(nextSink) + 1
      ensures old(closed) ==> err == Some(ErrorClosed) && written == old(written)
      ensures !old(closed) ==> written == old(written) + Sent(old(transportOpen), body, ConnectRequestID)
      ensures old(closed) || ev.SinkClosed? ==> err == Some(ErrorClosed)
      ensures !old(closed) && ev.Delivered? && invalidPassword(ev.msg.value.raw) ==>
        err == Some(InvalidPassword) && closed && !transportOpen
      ensures !old(closed) && ev.Delivered? && !invalidPassword(ev.msg.value.raw) ==> err.None?
      ensures err != Some(InvalidPassword) ==> closed == old(closed) && transportOpen == old(transportOpen)
      ensures receivers == old(receivers)
    {
      var resp, e := Exchange(body, ConnectRequestID, ConnectResponseID, ev);
      if e.Some? {
        return e;
      }
      if invalidPassword(resp.value.raw) {
        transportOpen := false;
        closed := true;
        return Some(InvalidPassword);
      }
      return None;
    }

    /** Disconnect: the DisconnectRequest / DisconnectResponse exchange, then closed and the socket shut. */
    method Disconnect(body: Marshalled, ev: SinkEvent) returns (err: Option<ApiError>)
      requires Valid() && Answers(ev, DisconnectResponse)
      modifies this
      ensures Valid()
      ensures nextSink == if old(closed) then old(nextSink) else old(nextSink) + 1
      ensures old(closed) ==> err == Some(ErrorClosed) && written == old(written)
      ensures !old(closed) ==> written == old(written) + Sent(old(transportOpen), body, DisconnectRequestID)
      ensures old(closed) || ev.SinkClosed? ==> err == Some(ErrorClosed)
      ensures !old(closed) && ev.Delivered? ==> err.None? && closed && !transportOpen
      ensures err.Some? ==> closed == old(closed) && transportOpen == old(transportOpen)
      ensures receivers == old(receivers)
    {
      var _, e := Exchange(body, DisconnectRequestID, DisconnectResponseID, ev);
      if e.Some? {
        return e;
      }
      closed := true;
      transportOpen := false;
      return None;
    }

    /** DeviceInfo: the DeviceInfoRequest / DeviceInfoResponse exchange, returning the response. */
    method DeviceInfo(body: Marshalled, ev: SinkEvent) returns (resp: Option<Message>, err: Option<ApiError>)
      requires Valid() && Answers(ev, DeviceInfoResponse)
      modifies this
      ensures Valid()
      ensures nextSink == if old(closed) then old(nextSink) else old(nextSink) + 1
      ensures old(closed) ==> err == Some(ErrorClosed) && written == old(written)
      ensures !old(closed) ==> written == old(written) + Sent(transportOpen, body, DeviceInfoRequestID)
      ensures !old(closed) && ev.Delivered? ==> err.None? && resp == ev.msg && resp.value.schema == DeviceInfoResponse
      ensures err.Some? ==> err == Some(ErrorClosed) && resp.None?
      ensures receivers == old(receivers) && closed == old(closed) && transportOpen == old(transportOpen)
    {
      resp, err := Exchange(body, DeviceInfoRequestID, DeviceInfoResponseID, ev);
    }

    /** Ping: the PingRequest / PingResponse exchange. */
    method Ping(body: Marshalled, ev: SinkEvent) returns (err: Option<ApiError>)
      requires Valid() && Answers(ev, PingResponse)
      modifies this
      ensures Valid()
      ensures nextSink == if old(closed) then old(nextSink) else old(nextSink) + 1
      ensures old(closed) ==> err == Some(ErrorClosed) && written == old(written)
      ensures !old(closed) ==> written == old(written) + Sent(transportOpen, body, PingRequestID)
      ensures !old(closed) ==> (err.None? <==> ev.Delivered?)
      ensures err.Some? ==> err == Some(ErrorClosed)
      ensures receivers == old(receivers) && closed == old(closed) && transportOpen == old(transportOpen)
    {
      var _, e := Exchange(body, PingRequestID, PingResponseID, ev);
      return e;
    }

    /**
     * ListEntities' receive loop: takes events until the Done message or the channel's
     * closure, appending each Entity in arrival order and skipping anything else.
     */
    method GatherEntities(evs: seq<SinkEvent>) returns (entities: seq<Message>, sinkClosed: bool)
      requires Terminates(evs)
      ensures entities == EntityMessages(evs[..ListEnd(evs)])
      ensures sinkClosed <==> evs[ListEnd(evs)].SinkClosed?
    {
      entities := [];
      var i := 0;
      var done := false;
      while !done
        invariant 0 <= i <= ListEnd(evs) + 1
        invariant !done ==> i <= ListEnd(evs) && entities == EntityMessages(evs[..i])
        invariant done ==> i == ListEnd(evs) + 1 && entities == EntityMessages(evs[..i - 1])
        invariant done ==> evs[i - 1].Delivered?
        decreases ListEnd(evs) + 1 - i
      {
        var ev := evs[i];
        assert evs[..i + 1] == evs[..i] + [ev];
        i := i + 1;
        if ev.SinkClosed? {
          return entities, true;
        }
        if ev.msg.Some? && ev.msg.value.schema == ListEntitiesDoneResponse {
          done := true;
        } else if CarriesEntity(ev) {
          entities := entities + [ev.msg.value];
        }
      }
      return entities, false;
    }

    /**
     * ListEntities: subscribe to the ListEntities replies, send the request, gather
     * the entities; the channel is removed on every way out.
     */
    method ListEntities(body: Marshalled, evs: seq<SinkEvent>) returns (entities: seq<Message>, err: Option<ApiError>)
      requires Valid()
      requires !closed ==> Terminates(evs)
      modifies this
      ensures Valid()
      ensures nextSink == if old(closed) then old(nextSink) else old(nextSink) + 1
      ensures old(closed) ==> entities == [] && err == Some(ErrorClosed) && written == old(written)
      ensures !old(closed) ==> written == old(written) + Sent(transportOpen, body, ListEntitiesRequestID)
      ensures !old(closed) ==> entities == EntityMessages(evs[..ListEnd(evs)])
      ensures !old(closed) ==> (err == Some(ErrorClosed) <==> evs[ListEnd(evs)].SinkClosed?)
      ensures err.Some? ==> err == Some(ErrorClosed)
      ensures receivers == old(receivers) && closed == old(closed) && transportOpen == old(transportOpen)
    {
      var r, e := SendMessageGetResponse(body, ListEntitiesRequestID, ListReplyIds);
      if e.Some? {
        return [], e;
      }
      var sinkClosed;
      entities, sinkClosed := GatherEntities(evs);
      RemoveReceiver(r.value);
      AddedThenRemoved(old(receivers), r.value, ListReplyIds);
      err := if sinkClosed then Some(ErrorClosed) else None;
    }

    /** SwitchCommand: sends the command; the closed flag is not consulted. */
    method SwitchCommand(body: Marshalled) returns (err: Option<ApiError>)
      modifies this
      ensures err.None? <==> body.Marshalled?
      ensures written == old(written) + Sent(transportOpen, body, SwitchCommandRequestID)
      ensures closed == old(closed) && transportOpen == old(transportOpen)
      ensures receivers == old(receivers) && nextSink == old(nextSink)
    {
      err := SendMessage(body, SwitchCommandRequestID);
    }

    /**
     * SubscribeStates: a new channel registered for the state responses, then the
     * request sent; the closed flag is not consulted.
     */
    method SubscribeStates(body: Marshalled) returns (r: SinkId, err: Option<ApiError>)
      requires Valid()
      modifies this
      ensures Valid()
      ensures r == old(nextSink) && r !in old(receivers)
      ensures receivers == Added(old(receivers), r, StateIds)
      ensures err.None? <==> body.Marshalled?
      ensures written == old(written) + Sent(transportOpen, body, SubscribeStatesRequestID)
      ensures closed == old(closed) && transportOpen == old(transportOpen)
    {
      r := MakeSink();
      AddReceiver(r, StateIds);
      err := SendMessage(body, SubscribeStatesRequestID);
    }

    /**
     * SubscribeLogs: a new channel registered for log lines, then the request sent;
     * the closed flag is not consulted.
     */
    method SubscribeLogs(body: Marshalled) returns (r: SinkId, err: Option<ApiError>)
      requires Valid()
      modifies this
      ensures Valid()
      ensures r == old(nextSink) && r !in old(receivers)
      ensures receivers == Added(old(receivers), r, [SubscribeLogsResponseID])
      ensures err.None? <==> body.Marshalled?
      ensures written == old(written) + Sent(transportOpen, body, SubscribeLogsRequestID)
      ensures closed == old(closed) && transportOpen == old(transportOpen)
    {
      r := MakeSink();
      AddReceiver(r, [SubscribeLogsResponseID]);
      err := SendMessage(body, SubscribeLogsRequestID);
    }

    /** The receive loop's fan-out: every registered channel whose filter holds t, each once. */
    method Dispatch(t: MessageId) returns (sinks: seq<SinkId>)
      ensures Distinct(sinks)
      ensures forall r :: r in sinks <==> r in Recipients(receivers, t)
    {
      sinks := [];
      var pending := receivers.Keys;
      while pending != {}
        invariant pending <= receivers.Keys
        invariant Distinct(sinks)
        invariant forall r :: r in sinks <==> r in Recipients(receivers, t) && r !in pending
        decreases pending
      {
        var r :| r in pending;
        if t in receivers[r] {
          sinks := sinks + [r];
        }
        pending := pending - {r};
      }
    }

    /** The receive loop's shutdown: close every registered channel, each once. */
    method CloseReceivers() returns (closedSinks: seq<SinkId>)
      ensures Distinct(closedSinks)
      ensures forall r :: r in closedSinks <==> r in receivers
    {
      closedSinks := [];
      var pending := receivers.Keys;
      while pending != {}
        invariant pending <= receivers.Keys
        invariant Distinct(closedSinks)
        invariant forall r :: r in closedSinks <==> r in receivers && r !in pending
        decreases pending
      {
        var r :| r in pending;
        closedSinks := closedSinks + [r];
        pending := pending - {r};
      }
    }

    /**
     * receiveLoop over the results of successive receiveMessage calls: stop at a read
     * that returned io.EOF, or at the first read once closed is set; otherwise decode
     * (whatever the error) and hand the message to its recipients. On stopping, set
     * closed, close the socket and close every channel still registered.
     */
    method ReceiveLoop(rcv: seq<Reception>, unmarshal: Unmarshaller) returns (batches: seq<Batch>, closedSinks: seq<SinkId>)
      requires |rcv| > 0 && (closed || HasEof(rcv))
      modifies this
      ensures closed && !transportOpen
      ensures receivers == old(receivers) && nextSink == old(nextSink) && written == old(written)
      ensures |batches| == if old(closed) then 0 else FirstEof(rcv)
      ensures forall k :: 0 <= k < |batches| ==> Delivers(receivers, rcv[k], unmarshal, batches[k])
      ensures Distinct(closedSinks)
      ensures forall r :: r in closedSinks <==> r in receivers
    {
      batches := [];
      var k := 0;
      while !(rcv[k].err == Some(EOF) || closed)
        invariant 0 <= k < |rcv|
        invariant closed == old(closed) && transportOpen == old(transportOpen)
        invariant !closed ==> HasEof(rcv) && k <= FirstEof(rcv)
        invariant closed ==> k == 0
        invariant receivers == old(receivers) && nextSink == old(nextSink) && written == old(written)
        invariant |batches| == k
        invariant forall j :: 0 <= j < k ==> Delivers(receivers, rcv[j], unmarshal, batches[j])
        decreases if closed then 0 else FirstEof(rcv) - k
      {
        var d := DecodeMessage(rcv[k].payload, rcv[k].msgType, unmarshal);
        var sinks := Dispatch(rcv[k].msgType);
        batches := batches + [Batch(d.msg, sinks)];
        k := k + 1;
      }
      closed := true;
      transportOpen := false;
      closedSinks := CloseReceivers();
    }
  }
}
