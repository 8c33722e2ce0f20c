/**
 * Client sessions as the Go tests drive them, with the mock server's replies given
 * as the events the client's channels receive.
 */
module Scenarios {
  import opened Wire
  import opened Catalog
  import opened Frames
  import opened Registry
  import opened Api

  /**
   * TestBasics: Hello writes one frame that the server reads back with
   * receiveMessage and decodes as a HelloRequest carrying the marshalled request.
   */
  method Basics(hello: Payload, response: seq<Byte>, unmarshal: Unmarshaller)
    returns (err: Option<ApiError>, rd: Reception, decoded: Decoded)
    ensures err.None?
    ensures rd == Reception(HelloRequestID, hello, None)
    ensures decoded.msg == Some(Message(HelloRequest, hello))
  {
    var c := new Connection();
    err := c.Hello(Marshalled(hello), Delivered(Some(Message(HelloResponse, response))));
    assert c.written == Sent(true, Marshalled(hello), HelloRequestID);
    var used;
    rd, used := ReceiveMessage(c.written);
    decoded := DecodeMessage(rd.payload, rd.msgType, unmarshal);
    IdOfInjective(decoded.msg.value.schema, HelloRequest);
  }

  /**
   * TestBadPassword: after a ConnectResponse with InvalidPassword set, Connect fails,
   * and a second Connect is refused with ErrorClosed without writing anything.
   */
  method BadPassword(hello: Marshalled, connect: Marshalled, helloRaw: seq<Byte>, connectRaw: seq<Byte>,
                     invalidPassword: seq<Byte> -> bool, later: SinkEvent)
    returns (first: Option<ApiError>, second: Option<ApiError>, third: Option<ApiError>, wroteAfter: bool)
    requires invalidPassword(connectRaw)
    requires Answers(later, ConnectResponse)
    ensures first.None?
    ensures second == Some(InvalidPassword)
    ensures third == Some(ErrorClosed) && !wroteAfter
  {
    var c := new Connection();
    first := c.Hello(hello, Delivered(Some(Message(HelloResponse, helloRaw))));
    second := c.Connect(connect, Delivered(Some(Message(ConnectResponse, connectRaw))), invalidPassword);
    var before := c.written;
    third := c.Connect(connect, later, invalidPassword);
    wroteAfter := c.written != before;
  }

  /** TestGoodPassword: with the password accepted, Hello and Connect both succeed and the connection stays open. */
  method GoodPassword(hello: Marshalled, connect: Marshalled, helloRaw: seq<Byte>, connectRaw: seq<Byte>,
                      invalidPassword: seq<Byte> -> bool)
    returns (first: Option<ApiError>, second: Option<ApiError>, stillOpen: bool)
    requires !invalidPassword(connectRaw)
    ensures first.None? && second.None? && stillOpen
  {
    var c := new Connection();
    first := c.Hello(hello, Delivered(Some(Message(HelloResponse, helloRaw))));
    second := c.Connect(connect, Delivered(Some(Message(ConnectResponse, connectRaw))), invalidPassword);
    stillOpen := !c.closed;
  }

  /**
   * TestUnexpectedClose: after Hello the server reads the ConnectRequest and goes away.
   * Connect has written its request and registered its channel; the receive loop then
   * reads io.EOF and closes every channel, so Connect's receive sees the closure and
   * returns ErrorClosed. The loop has set closed, so a further Connect is refused
   * before anything is sent.
   */
  method UnexpectedClose(hello: Marshalled, connect: Marshalled, helloRaw: seq<Byte>,
                         invalidPassword: seq<Byte> -> bool, unmarshal: Unmarshaller)
    returns (first: Option<ApiError>, second: Option<ApiError>, request: seq<Byte>,
             third: Option<ApiError>, wroteAfter: bool)
    ensures first.None? && second == Some(ErrorClosed)
    ensures connect.Marshalled? ==> request == Frame(connect.bytes, ConnectRequestID)
    ensures third == Some(ErrorClosed) && !wroteAfter
  {
    var c := new Connection();
    first := c.Hello(hello, Delivered(Some(Message(HelloResponse, helloRaw))));
    var before := c.written;
    second := c.Connect(connect, SinkClosed, invalidPassword);
    request := c.written[|before|..];
    assert HasEof([Failed(EOF)]) by { assert [Failed(EOF)][0].err == Some(EOF); }
    var _, closedSinks := c.ReceiveLoop([Failed(EOF)], unmarshal);
    before := c.written;
    third := c.Connect(connect, SinkClosed, invalidPassword);
    wroteAfter := c.written != before;
  }

  /** A Disconnect that gets its response closes the connection: later requests are refused. */
  method DisconnectThenPing(bye: Marshalled, ping: Marshalled, byeRaw: seq<Byte>, later: SinkEvent)
    returns (first: Option<ApiError>, second: Option<ApiError>)
    requires Answers(later, PingResponse)
    ensures first.None? && second == Some(ErrorClosed)
  {
    var c := new Connection();
    first := c.Disconnect(bye, Delivered(Some(Message(DisconnectResponse, byeRaw))));
    second := c.Ping(ping, later);
  }
}
