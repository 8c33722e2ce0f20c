/**
 * The message catalog: the MessageID constant table (declared identically in
 * message.go and messageid.go, modelled once here) and decodeMessage's dispatch from
 * a numeric message type to the schema it is decoded as.
 */
module Catalog {
  import opened Wire

  /** MessageID is a uint64 on the wire and in Go. */
  type MessageId = Uint64

  const HelloRequestID: MessageId := 1
  const HelloResponseID: MessageId := 2
  const ConnectRequestID: MessageId := 3
  const ConnectResponseID: MessageId := 4
  const DisconnectRequestID: MessageId := 5
  const DisconnectResponseID: MessageId := 6
  const PingRequestID: MessageId := 7
  const PingResponseID: MessageId := 8
  const DeviceInfoRequestID: MessageId := 9
  const DeviceInfoResponseID: MessageId := 10
  const ListEntitiesRequestID: MessageId := 11
  const ListEntitiesDoneResponseID: MessageId := 19
  const SubscribeStatesRequestID: MessageId := 20
  const ListEntitiesBinarySensorResponseID: MessageId := 12
  const BinarySensorStateResponseID: MessageId := 21
  const ListEntitiesCoverResponseID: MessageId := 13
  const CoverStateResponseID: MessageId := 22
  const CoverCommandRequestID: MessageId := 30
  const ListEntitiesFanResponseID: MessageId := 14
  const FanStateResponseID: MessageId := 23
  const FanCommandRequestID: MessageId := 31
  const ListEntitiesLightResponseID: MessageId := 15
  const LightStateResponseID: MessageId := 24
  const LightCommandRequestID: MessageId := 32
  const ListEntitiesSensorResponseID: MessageId := 16
  const SensorStateResponseID: MessageId := 25
  const ListEntitiesSwitchResponseID: MessageId := 17
  const SwitchStateResponseID: MessageId := 26
  const SwitchCommandRequestID: MessageId := 33
  const ListEntitiesTextSensorResponseID: MessageId := 18
  const TextSensorStateResponseID: MessageId := 27
  const SubscribeLogsRequestID: MessageId := 28
  const SubscribeLogsResponseID: MessageId := 29
  const SubscribeHomeassistantServicesRequestID: MessageId := 34
  const HomeassistantServiceResponseID: MessageId := 35
  const SubscribeHomeAssistantStatesRequestID: MessageId := 38
  const SubscribeHomeAssistantStateResponseID: MessageId := 39
  const HomeAssistantStateResponseID: MessageId := 40
  const GetTimeRequestID: MessageId := 36
  const GetTimeResponseID: MessageId := 37
  const ListEntitiesServicesResponseID: MessageId := 41
  const ExecuteServiceRequestID: MessageId := 42
  const ListEntitiesCameraResponseID: MessageId := 43
  const CameraImageResponseID: MessageId := 44
  const CameraImageRequestID: MessageId := 45
  const ListEntitiesClimateResponseID: MessageId := 46
  const ClimateStateResponseID: MessageId := 47
  const ClimateCommandRequestID: MessageId := 48

  /** One constructor per generated message struct the catalog can decode. */
  datatype Schema =
    | HelloRequest
    | HelloResponse
    | ConnectRequest
    | ConnectResponse
    | DisconnectRequest
    | DisconnectResponse
    | PingRequest
    | PingResponse
    | DeviceInfoRequest
    | DeviceInfoResponse
    | ListEntitiesRequest
    | ListEntitiesDoneResponse
    | SubscribeStatesRequest
    | ListEntitiesBinarySensorResponse
    | BinarySensorStateResponse
    | ListEntitiesCoverResponse
    | CoverStateResponse
    | CoverCommandRequest
    | ListEntitiesFanResponse
    | FanStateResponse
    | FanCommandRequest
    | ListEntitiesLightResponse
    | LightStateResponse
    | LightCommandRequest
    | ListEntitiesSensorResponse
    | SensorStateResponse
    | ListEntitiesSwitchResponse
    | SwitchStateResponse
    | SwitchCommandRequest
    | ListEntitiesTextSensorResponse
    | TextSensorStateResponse
    | SubscribeLogsRequest
    | SubscribeLogsResponse
    | SubscribeHomeassistantServicesRequest
    | HomeassistantServiceResponse
    | SubscribeHomeAssistantStatesRequest
    | SubscribeHomeAssistantStateResponse
    | HomeAssistantStateResponse
    | GetTimeRequest
    | GetTimeResponse
    | ListEntitiesServicesResponse
    | ExecuteServiceRequest
    | ListEntitiesCameraResponse
    | CameraImageResponse
    | CameraImageRequest
    | ListEntitiesClimateResponse
    | ClimateStateResponse
    | ClimateCommandRequest

  /** The constant named after each schema. */
  function IdOf(s: Schema): (id: MessageId)
    ensures 1 <= id <= 48
  {
    match s
    case HelloRequest => HelloRequestID
    case HelloResponse => HelloResponseID
    case ConnectRequest => ConnectRequestID
    case ConnectResponse => ConnectResponseID
    case DisconnectRequest => DisconnectRequestID
    case DisconnectResponse => DisconnectResponseID
    case PingRequest => PingRequestID
    case PingResponse => PingResponseID
    case DeviceInfoRequest => DeviceInfoRequestID
    case DeviceInfoResponse => DeviceInfoResponseID
    case ListEntitiesRequest => ListEntitiesRequestID
    case ListEntitiesDoneResponse => ListEntitiesDoneResponseID
    case SubscribeStatesRequest => SubscribeStatesRequestID
    case ListEntitiesBinarySensorResponse => ListEntitiesBinarySensorResponseID
    case BinarySensorStateResponse => BinarySensorStateResponseID
    case ListEntitiesCoverResponse => ListEntitiesCoverResponseID
    case CoverStateResponse => CoverStateResponseID
    case CoverCommandRequest => CoverCommandRequestID
    case ListEntitiesFanResponse => ListEntitiesFanResponseID
    case FanStateResponse => FanStateResponseID
    case FanCommandRequest => FanCommandRequestID
    case ListEntitiesLightResponse => ListEntitiesLightResponseID
    case LightStateResponse => LightStateResponseID
    case LightCommandRequest => LightCommandRequestID
    case ListEntitiesSensorResponse => ListEntitiesSensorResponseID
    case SensorStateResponse => SensorStateResponseID
    case ListEntitiesSwitchResponse => ListEntitiesSwitchResponseID
    case SwitchStateResponse => SwitchStateResponseID
    case SwitchCommandRequest => SwitchCommandRequestID
    case ListEntitiesTextSensorResponse => ListEntitiesTextSensorResponseID
    case TextSensorStateResponse => TextSensorStateResponseID
    case SubscribeLogsRequest => SubscribeLogsRequestID
    case SubscribeLogsResponse => SubscribeLogsResponseID
    case SubscribeHomeassistantServicesRequest => SubscribeHomeassistantServicesRequestID
    case HomeassistantServiceResponse => HomeassistantServiceResponseID
    case SubscribeHomeAssistantStatesRequest => SubscribeHomeAssistantStatesRequestID
    case SubscribeHomeAssistantStateResponse => SubscribeHomeAssistantStateResponseID
    case HomeAssistantStateResponse => HomeAssistantStateResponseID
    case GetTimeRequest => GetTimeRequestID
    case GetTimeResponse => GetTimeResponseID
    case ListEntitiesServicesResponse => ListEntitiesServicesResponseID
    case ExecuteServiceRequest => ExecuteServiceRequestID
    case ListEntitiesCameraResponse => ListEntitiesCameraResponseID
    case CameraImageResponse => CameraImageResponseID
    case CameraImageRequest => CameraImageRequestID
    case ListEntitiesClimateResponse => ListEntitiesClimateResponseID
    case ClimateStateResponse => ClimateStateResponseID
    case ClimateCommandRequest => ClimateCommandRequestID
  }

  /**
   * The case decodeMessage takes for msgType, in the order of its switch: the schema
   * it allocates and fills, or None for the default (unsupported) case.
   */
  function SchemaOf(msgType: MessageId): (r: Option<Schema>)
    ensures r.Some? <==> 1 <= msgType <= 48
  {
    if msgType == ListEntitiesBinarySensorResponseID then Some(ListEntitiesBinarySensorResponse)
    else if msgType == CameraImageRequestID then Some(CameraImageRequest)
    else if msgType == SubscribeLogsResponseID then Some(SubscribeLogsResponse)
    else if msgType == SubscribeLogsRequestID then Some(SubscribeLogsRequest)
    else if msgType == SensorStateResponseID then Some(SensorStateResponse)
    else if msgType == CoverStateResponseID then Some(CoverStateResponse)
    else if msgType == ListEntitiesLightResponseID then Some(ListEntitiesLightResponse)
    else if msgType == ListEntitiesDoneResponseID then Some(ListEntitiesDoneResponse)
    else if msgType == GetTimeRequestID then Some(GetTimeRequest)
    else if msgType == ListEntitiesTextSensorResponseID then Some(ListEntitiesTextSensorResponse)
    else if msgType == DeviceInfoRequestID then Some(DeviceInfoRequest)
    else if msgType == ConnectRequestID then Some(ConnectRequest)
    else if msgType == TextSensorStateResponseID then Some(TextSensorStateResponse)
    else if msgType == SubscribeStatesRequestID then Some(SubscribeStatesRequest)
    else if msgType == HomeAssistantStateResponseID then Some(HomeAssistantStateResponse)
    else if msgType == DisconnectResponseID then Some(DisconnectResponse)
    else if msgType == ListEntitiesSensorResponseID then Some(ListEntitiesSensorResponse)
    else if msgType == ListEntitiesCameraResponseID then Some(ListEntitiesCameraResponse)
    else if msgType == BinarySensorStateResponseID then Some(BinarySensorStateResponse)
    else if msgType == SubscribeHomeAssistantStateResponseID then Some(SubscribeHomeAssistantStateResponse)
    else if msgType == ClimateStateResponseID then Some(ClimateStateResponse)
    else if msgType == CameraImageResponseID then Some(CameraImageResponse)
    else if msgType == ListEntitiesCoverResponseID then Some(ListEntitiesCoverResponse)
    else if msgType == GetTimeResponseID then Some(GetTimeResponse)
    else if msgType == SwitchCommandRequestID then Some(SwitchCommandRequest)
    else if msgType == LightStateResponseID then Some(LightStateResponse)
    else if msgType == LightCommandRequestID then Some(LightCommandRequest)
    else if msgType == DeviceInfoResponseID then Some(DeviceInfoResponse)
    else if msgType == HelloResponseID then Some(HelloResponse)
    else if msgType == FanCommandRequestID then Some(FanCommandRequest)
    else if msgType == PingRequestID then Some(PingRequest)
    else if msgType == SubscribeHomeassistantServicesRequestID then Some(SubscribeHomeassistantServicesRequest)
    else if msgType == ExecuteServiceRequestID then Some(ExecuteServiceRequest)
    else if msgType == CoverCommandRequestID then Some(CoverCommandRequest)
    else if msgType == ListEntitiesServicesResponseID then Some(ListEntitiesServicesResponse)
    else if msgType == DisconnectRequestID then Some(DisconnectRequest)
    else if msgType == ListEntitiesSwitchResponseID then Some(ListEntitiesSwitchResponse)
    else if msgType == PingResponseID then Some(PingResponse)
    else if msgType == ConnectResponseID then Some(ConnectResponse)
    else if msgType == SubscribeHomeAssistantStatesRequestID then Some(SubscribeHomeAssistantStatesRequest)
    else if msgType == FanStateResponseID then Some(FanStateResponse)
    else if msgType == HelloRequestID then Some(HelloRequest)
    else if msgType == SwitchStateResponseID then Some(SwitchStateResponse)
    else if msgType == ClimateCommandRequestID then Some(ClimateCommandRequest)
    else if msgType == ListEntitiesFanResponseID then Some(ListEntitiesFanResponse)
    else if msgType == ListEntitiesRequestID then Some(ListEntitiesRequest)
    else if msgType == ListEntitiesClimateResponseID then Some(ListEntitiesClimateResponse)
    else if msgType == HomeassistantServiceResponseID then Some(HomeassistantServiceResponse)
    else None
  }

  /** Each schema is what its own constant decodes to. */
  lemma SchemaOfIdOf(s: Schema)
    ensures SchemaOf(IdOf(s)) == Some(s)
  {
    if IdOf(s) <= 16 {
      SchemaOfIdOf1To16(s);
    } else if IdOf(s) <= 32 {
      SchemaOfIdOf17To32(s);
    } else {
      SchemaOfIdOf33To48(s);
    }
  }

  lemma SchemaOfIdOf1To16(s: Schema)
    requires 1 <= IdOf(s) <= 16
    ensures SchemaOf(IdOf(s)) == Some(s)
  {
    match s
    case HelloRequest => assert SchemaOf(HelloRequestID) == Some(HelloRequest);
    case HelloResponse => assert SchemaOf(HelloResponseID) == Some(HelloResponse);
    case ConnectRequest => assert SchemaOf(ConnectRequestID) == Some(ConnectRequest);
    case ConnectResponse => assert SchemaOf(ConnectResponseID) == Some(ConnectResponse);
    case DisconnectRequest => assert SchemaOf(DisconnectRequestID) == Some(DisconnectRequest);
    case DisconnectResponse => assert SchemaOf(DisconnectResponseID) == Some(DisconnectResponse);
    case PingRequest => assert SchemaOf(PingRequestID) == Some(PingRequest);
    case PingResponse => assert SchemaOf(PingResponseID) == Some(PingResponse);
    case DeviceInfoRequest => assert SchemaOf(DeviceInfoRequestID) == Some(DeviceInfoRequest);
    case DeviceInfoResponse => assert SchemaOf(DeviceInfoResponseID) == Some(DeviceInfoResponse);
    case ListEntitiesRequest => assert SchemaOf(ListEntitiesRequestID) == Some(ListEntitiesRequest);
    case ListEntitiesBinarySensorResponse => assert SchemaOf(ListEntitiesBinarySensorResponseID) == Some(ListEntitiesBinarySensorResponse);
    case ListEntitiesCoverResponse => assert SchemaOf(ListEntitiesCoverResponseID) == Some(ListEntitiesCoverResponse);
    case ListEntitiesFanResponse => assert SchemaOf(ListEntitiesFanResponseID) == Some(ListEntitiesFanResponse);
    case ListEntitiesLightResponse => assert SchemaOf(ListEntitiesLightResponseID) == Some(ListEntitiesLightResponse);
    case ListEntitiesSensorResponse => assert SchemaOf(ListEntitiesSensorResponseID) == Some(ListEntitiesSensorResponse);
    case _ => assert false;
  }

  lemma SchemaOfIdOf17To32(s: Schema)
    requires 17 <= IdOf(s) <= 32
    ensures SchemaOf(IdOf(s)) == Some(s)
  {
    match s
    case ListEntitiesSwitchResponse => assert SchemaOf(ListEntitiesSwitchResponseID) == Some(ListEntitiesSwitchResponse);
    case ListEntitiesTextSensorResponse => assert SchemaOf(ListEntitiesTextSensorResponseID) == Some(ListEntitiesTextSensorResponse);
    case ListEntitiesDoneResponse => assert SchemaOf(ListEntitiesDoneResponseID) == Some(ListEntitiesDoneResponse);
    case SubscribeStatesRequest => assert SchemaOf(SubscribeStatesRequestID) == Some(SubscribeStatesRequest);
    case BinarySensorStateResponse => assert SchemaOf(BinarySensorStateResponseID) == Some(BinarySensorStateResponse);
    case CoverStateResponse => assert SchemaOf(CoverStateResponseID) == Some(CoverStateResponse);
    case FanStateResponse => assert SchemaOf(FanStateResponseID) == Some(FanStateResponse);
    case LightStateResponse => assert SchemaOf(LightStateResponseID) == Some(LightStateResponse);
    case SensorStateResponse => assert SchemaOf(SensorStateResponseID) == Some(SensorStateResponse);
    case SwitchStateResponse => assert SchemaOf(SwitchStateResponseID) == Some(SwitchStateResponse);
    case TextSensorStateResponse => assert SchemaOf(TextSensorStateResponseID) == Some(TextSensorStateResponse);
    case SubscribeLogsRequest => assert SchemaOf(SubscribeLogsRequestID) == Some(SubscribeLogsRequest);
    case SubscribeLogsResponse => assert SchemaOf(SubscribeLogsResponseID) == Some(SubscribeLogsResponse);
    case CoverCommandRequest => assert SchemaOf(CoverCommandRequestID) == Some(CoverCommandRequest);
    case FanCommandRequest => assert SchemaOf(FanCommandRequestID) == Some(FanCommandRequest);
    case LightCommandRequest => assert SchemaOf(LightCommandRequestID) == Some(LightCommandRequest);
    case _ => assert false;
  }

  lemma SchemaOfIdOf33To48(s: Schema)
    requires 33 <= IdOf(s) <= 48
    ensures SchemaOf(IdOf(s)) == Some(s)
  {
    match s
    case SwitchCommandRequest => assert SchemaOf(SwitchCommandRequestID) == Some(SwitchCommandRequest);
    case SubscribeHomeassistantServicesRequest => assert SchemaOf(SubscribeHomeassistantServicesRequestID) == Some(SubscribeHomeassistantServicesRequest);
    case HomeassistantServiceResponse => assert SchemaOf(HomeassistantServiceResponseID) == Some(HomeassistantServiceResponse);
    case GetTimeRequest => assert SchemaOf(GetTimeRequestID) == Some(GetTimeRequest);
    case GetTimeResponse => assert SchemaOf(GetTimeResponseID) == Some(GetTimeResponse);
    case SubscribeHomeAssistantStatesRequest => assert SchemaOf(SubscribeHomeAssistantStatesRequestID) == Some(SubscribeHomeAssistantStatesRequest);
    case SubscribeHomeAssistantStateResponse => assert SchemaOf(SubscribeHomeAssistantStateResponseID) == Some(SubscribeHomeAssistantStateResponse);
    case HomeAssistantStateResponse => assert SchemaOf(HomeAssistantStateResponseID) == Some(HomeAssistantStateResponse);
    case ListEntitiesServicesResponse => assert SchemaOf(ListEntitiesServicesResponseID) == Some(ListEntitiesServicesResponse);
    case ExecuteServiceRequest => assert SchemaOf(ExecuteServiceRequestID) == Some(ExecuteServiceRequest);
    case ListEntitiesCameraResponse => assert SchemaOf(ListEntitiesCameraResponseID) == Some(ListEntitiesCameraResponse);
    case CameraImageResponse => assert SchemaOf(CameraImageResponseID) == Some(CameraImageResponse);
    case CameraImageRequest => assert SchemaOf(CameraImageRequestID) == Some(CameraImageRequest);
    case ListEntitiesClimateResponse => assert SchemaOf(ListEntitiesClimateResponseID) == Some(ListEntitiesClimateResponse);
    case ClimateStateResponse => assert SchemaOf(ClimateStateResponseID) == Some(ClimateStateResponse);
    case ClimateCommandRequest => assert SchemaOf(ClimateCommandRequestID) == Some(ClimateCommandRequest);
    case _ => assert false;
  }

  /** Every value 1..48 is the constant of some schema. */
  lemma IdTaken(m: MessageId)
    requires 1 <= m <= 48
    ensures exists s :: IdOf(s) == m
  {
    if m <= 16 {
      IdTaken1To16(m);
    } else if m <= 28 {
      IdTaken17To28(m);
    } else if m <= 36 {
      IdTaken29To36(m);
    } else if m <= 42 {
      IdTaken37To42(m);
    } else {
      IdTaken43To48(m);
    }
  }

  lemma IdTaken1To16(m: MessageId)
    requires 1 <= m <= 16
    ensures exists s :: IdOf(s) == m
  {
    if m == 1 {
      assert IdOf(HelloRequest) == m;
    } else if m == 2 {
      assert IdOf(HelloResponse) == m;
    } else if m == 3 {
      assert IdOf(ConnectRequest) == m;
    } else if m == 4 {
      assert IdOf(ConnectResponse) == m;
    } else if m == 5 {
      assert IdOf(DisconnectRequest) == m;
    } else if m == 6 {
      assert IdOf(DisconnectResponse) == m;
    } else if m == 7 {
      assert IdOf(PingRequest) == m;
    } else if m == 8 {
      assert IdOf(PingResponse) == m;
    } else if m == 9 {
      assert IdOf(DeviceInfoRequest) == m;
    } else if m == 10 {
      assert IdOf(DeviceInfoResponse) == m;
    } else if m == 11 {
      assert IdOf(ListEntitiesRequest) == m;
    } else if m == 12 {
      assert IdOf(ListEntitiesBinarySensorResponse) == m;
    } else if m == 13 {
      assert IdOf(ListEntitiesCoverResponse) == m;
    } else if m == 14 {
      assert IdOf(ListEntitiesFanResponse) == m;
    } else if m == 15 {
      assert IdOf(ListEntitiesLightResponse) == m;
    } else if m == 16 {
      assert IdOf(ListEntitiesSensorResponse) == m;
    }
  }

  lemma IdTaken17To28(m: MessageId)
    requires 17 <= m <= 28
    ensures exists s :: IdOf(s) == m
  {
    if m == 17 {
      assert IdOf(ListEntitiesSwitchResponse) == m;
    } else if m == 18 {
      assert IdOf(ListEntitiesTextSensorResponse) == m;
    } else if m == 19 {
      assert IdOf(ListEntitiesDoneResponse) == m;
    } else if m == 20 {
      assert IdOf(SubscribeStatesRequest) == m;
    } else if m == 21 {
      assert IdOf(BinarySensorStateResponse) == m;
    } else if m == 22 {
      assert IdOf(CoverStateResponse) == m;
    } else if m == 23 {
      assert IdOf(FanStateResponse) == m;
    } else if m == 24 {
      assert IdOf(LightStateResponse) == m;
    } else if m == 25 {
      assert IdOf(SensorStateResponse) == m;
    } else if m == 26 {
      assert IdOf(SwitchStateResponse) == m;
    } else if m == 27 {
      assert IdOf(TextSensorStateResponse) == m;
    } else if m == 28 {
      assert IdOf(SubscribeLogsRequest) == m;
    }
  }

  lemma IdTaken29To36(m: MessageId)
    requires 29 <= m <= 36
    ensures exists s :: IdOf(s) == m
  {
    if m == 29 {
      assert IdOf(SubscribeLogsResponse) == m;
    } else if m == 30 {
      assert IdOf(CoverCommandRequest) == m;
    } else if m == 31 {
      assert IdOf(FanCommandRequest) == m;
    } else if m == 32 {
      assert IdOf(LightCommandRequest) == m;
    } else if m == 33 {
      assert IdOf(SwitchCommandRequest) == m;
    } else if m == 34 {
      assert IdOf(SubscribeHomeassistantServicesRequest) == m;
    } else if m == 35 {
      assert IdOf(HomeassistantServiceResponse) == m;
    } else if m == 36 {
      assert IdOf(GetTimeRequest) == m;
    }
  }

  lemma IdTaken37To42(m: MessageId)
    requires 37 <= m <= 42
    ensures exists s :: IdOf(s) == m
  {
    if m == 37 {
      assert IdOf(GetTimeResponse) == m;
    } else if m == 38 {
      assert IdOf(SubscribeHomeAssistantStatesRequest) == m;
    } else if m == 39 {
      assert IdOf(SubscribeHomeAssistantStateResponse) == m;
    } else if m == 40 {
      assert IdOf(HomeAssistantStateResponse) == m;
    } else if m == 41 {
      assert IdOf(ListEntitiesServicesResponse) == m;
    } else if m == 42 {
      assert IdOf(ExecuteServiceRequest) == m;
    }
  }

  lemma IdTaken43To48(m: MessageId)
    requires 43 <= m <= 48
    ensures exists s :: IdOf(s) == m
  {
    if m == 43 {
      assert IdOf(ListEntitiesCameraResponse) == m;
    } else if m == 44 {
      assert IdOf(CameraImageResponse) == m;
    } else if m == 45 {
      assert IdOf(CameraImageRequest) == m;
    } else if m == 46 {
      assert IdOf(ListEntitiesClimateResponse) == m;
    } else if m == 47 {
      assert IdOf(ClimateStateResponse) == m;
    } else if m == 48 {
      assert IdOf(ClimateCommandRequest) == m;
    }
  }

  /** Each case of decodeMessage allocates the schema whose constant selects it. */
  lemma IdOfSchemaOf(msgType: MessageId)
    ensures SchemaOf(msgType).Some? ==> IdOf(SchemaOf(msgType).value) == msgType
  {
    if 1 <= msgType <= 48 {
      IdTaken(msgType);
      var s :| IdOf(s) == msgType;
      SchemaOfIdOf(s);
    }
  }

  /** No two schemas share a constant: the 48 constants are pairwise distinct. */
  lemma IdOfInjective(a: Schema, b: Schema)
    requires IdOf(a) == IdOf(b)
    ensures a == b
  {
    SchemaOfIdOf(a);
    SchemaOfIdOf(b);
  }

  /** The constants take exactly the values 1..48. */
  lemma IdsAreOneTo48(id: MessageId)
    ensures (exists s :: IdOf(s) == id) <==> 1 <= id <= 48
  {
    if 1 <= id <= 48 {
      IdTaken(id);
    }
  }

  /** For the request/response exchanges, the response id is the request id plus one. */
  lemma ResponseIdFollowsRequestId()
    ensures HelloResponseID == HelloRequestID + 1
    ensures ConnectResponseID == ConnectRequestID + 1
    ensures DisconnectResponseID == DisconnectRequestID + 1
    ensures PingResponseID == PingRequestID + 1
    ensures DeviceInfoResponseID == DeviceInfoRequestID + 1
  {
  }

  /** A decoded message: the schema decodeMessage allocated and the bytes it was filled from. */
  datatype Message = Message(schema: Schema, raw: seq<Byte>)

  datatype DecodeError =
    | Unsupported(msgType: MessageId)   // "unsupported message: <id>"
    | UnmarshalFailed                   // the error proto.Unmarshal returned

  /** decodeMessage's two results: the message (None for nil) and the error (None for nil). */
  datatype Decoded = Decoded(msg: Option<Message>, err: Option<DecodeError>)

  /** proto.Unmarshal is foreign: whether it accepts the bytes for a schema is supplied by the caller. */
  type Unmarshaller = (Schema, seq<Byte>) -> bool

  /**
   * decodeMessage: the schema is chosen by msgType alone and the raw bytes only fill
   * it; a known id yields a message even when unmarshalling fails, an unknown id
   * yields nil and an "unsupported message" error.
   */
  function DecodeMessage(raw: seq<Byte>, msgType: MessageId, unmarshal: Unmarshaller): (d: Decoded)
    ensures d.msg.Some? <==> 1 <= msgType <= 48
    ensures d.msg.Some? ==> IdOf(d.msg.value.schema) == msgType && d.msg.value.raw == raw
    ensures d.msg.Some? ==> (d.err.None? <==> unmarshal(d.msg.value.schema, raw))
    ensures d.msg.None? ==> d.err == Some(Unsupported(msgType))
  {
    IdOfSchemaOf(msgType);
    match SchemaOf(msgType)
    case None => Decoded(None, Some(Unsupported(msgType)))
    case Some(s) => Decoded(Some(Message(s, raw)), if unmarshal(s, raw) then None else Some(UnmarshalFailed))
  }

  /** Requests decode as well as responses (the peer in a test decodes what the client sends). */
  lemma RequestsDecode(raw: seq<Byte>, unmarshal: Unmarshaller)
    ensures DecodeMessage(raw, HelloRequestID, unmarshal).msg == Some(Message(HelloRequest, raw))
    ensures DecodeMessage(raw, ConnectRequestID, unmarshal).msg == Some(Message(ConnectRequest, raw))
    ensures DecodeMessage(raw, 12, unmarshal).msg == Some(Message(ListEntitiesBinarySensorResponse, raw))
  {
  }
}
