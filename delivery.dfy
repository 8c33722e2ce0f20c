/**
 * What the receive loop hands out: which messages reach which channels, when it
 * stops, and why the request methods' type assertions hold for what it delivers.
 */
module Delivery {
  import opened Wire
  import opened Varint
  import opened Catalog
  import opened Frames
  import opened Registry
  import opened Api

  /** A read error other than io.EOF does not stop the loop: it stops only after the first io.EOF. */
  lemma {:induction false} OtherErrorsDoNotStop(rcv: seq<Reception>, k: nat)
    requires HasEof(rcv) && k < |rcv|
    requires forall j :: 0 <= j <= k ==> rcv[j].err != Some(EOF)
    ensures k < FirstEof(rcv)
  {
  }

  /**
   * A reception that failed is decoded as type 0: no message and an "unsupported"
   * error. The loop still dispatches it, to the channels whose filter holds 0.
   */
  lemma FailedReadDispatchedAsTypeZero(e: ReadError, rs: Receivers, unmarshal: Unmarshaller)
    ensures DecodeMessage(Failed(e).payload, Failed(e).msgType, unmarshal) == Decoded(None, Some(Unsupported(0)))
    ensures (forall r :: r in rs ==> 0 !in rs[r]) ==> Recipients(rs, Failed(e).msgType) == {}
  {
  }

  /**
   * A channel whose filter holds only message ids receives only messages, never
   * nil, and only of the types in its filter.
   */
  lemma DeliveredMessagesMatchFilter(rs: Receivers, rd: Reception, unmarshal: Unmarshaller, r: SinkId)
    requires r in Recipients(rs, rd.msgType)
    requires forall t :: t in rs[r] ==> 1 <= t <= 48
    ensures var m := DecodeMessage(rd.payload, rd.msgType, unmarshal).msg;
      m.Some? && IdOf(m.value.schema) in rs[r] && m.value.raw == rd.payload
  {
  }

  /**
   * The channel of a request method, registered for the one response type of schema s,
   * is only ever handed a message of schema s, so the method's type assertion holds.
   */
  lemma SingleTypeChannelGetsThatSchema(rs: Receivers, rd: Reception, unmarshal: Unmarshaller, r: SinkId, s: Schema)
    requires r in rs && rs[r] == {IdOf(s)}
    requires r in Recipients(rs, rd.msgType)
    ensures DecodeMessage(rd.payload, rd.msgType, unmarshal).msg == Some(Message(s, rd.payload))
  {
    var m := DecodeMessage(rd.payload, rd.msgType, unmarshal).msg;
    DeliveredMessagesMatchFilter(rs, rd, unmarshal, r);
    IdOfInjective(m.value.schema, s);
  }

  /** The loop reads a stream of frames to its end: one well-formed reception per frame, then io.EOF. */
  lemma {:induction false} StreamStopsAfterLastFrame(fs: seq<(Payload, MessageId)>)
    ensures HasEof(ReadFrames(Stream(fs)))
    ensures FirstEof(ReadFrames(Stream(fs))) == |fs|
    ensures forall k :: 0 <= k < |fs| ==> ReadFrames(Stream(fs))[k] == Reception(fs[k].1, fs[k].0, None)
  {
    ReadFramesOfStream(fs);
    var rcv := ReadFrames(Stream(fs));
    assert rcv[|fs|].err == Some(EOF);
    OtherErrorsDoNotStopAll(rcv, |fs|);
  }

  lemma OtherErrorsDoNotStopAll(rcv: seq<Reception>, n: nat)
    requires n < |rcv| && rcv[n].err == Some(EOF)
    requires forall j :: 0 <= j < n ==> rcv[j].err != Some(EOF)
    ensures HasEof(rcv) && FirstEof(rcv) == n
  {
  }

  /** A stream that ends right after a preamble byte stops the loop as if it had ended before it. */
  lemma PreambleThenEndIsEof()
    ensures ReadFrames([0])[0] == Failed(EOF)
    ensures FirstEof(ReadFrames([0])) == 0
  {
    assert ReadFrames([0])[0] == ParseFrame([0]).rd;
  }
}
